/** The server (`src/server.rs`). Every method is proved to change the state exactly
    as the function of the same name in `ServerModel` says. */
module Server {
  import opened Prelude
  import opened Net
  import opened MessageTable
  import opened Tcp
  import opened Udp
  import opened Inbound
  import M = ServerModel

  /** An entry of `new_cons`. */
  datatype NewCon = NewCon(con: Slot, cid: CId, since: nat)

  ghost function Pendings(ps: seq<NewCon>): (r: seq<M.Pending>)
    ensures |r| == |ps| && forall i :: 0 <= i < |ps| ==> r[i] == M.Pending(ps[i].con.sock, ps[i].cid, ps[i].since)
  {
    seq(|ps|, i requires 0 <= i < |ps| => M.Pending(ps[i].con.sock, ps[i].cid, ps[i].since))
  }

  ghost function Socks(m: map<CId, Slot>): (r: map<CId, Socket>)
    ensures r.Keys == m.Keys && forall c :: c in m ==> r[c] == m[c].sock
  {
    map c | c in m :: m[c].sock
  }

  lemma SocksPut(m: map<CId, Slot>, cid: CId, slot: Slot)
    ensures Socks(m[cid := slot]) == Socks(m)[cid := slot.sock]
  {
  }

  lemma SocksDrop(m: map<CId, Slot>, cid: CId)
    ensures Socks(m - {cid}) == Socks(m) - {cid}
  {
  }

  lemma PendingsRemove(ps: seq<NewCon>, i: nat)
    requires i < |ps|
    ensures Pendings(RemoveAt(ps, i)) == RemoveAt(Pendings(ps), i)
  {
  }

  lemma PendingsPush(ps: seq<NewCon>, p: NewCon)
    ensures Pendings(ps + [p]) == Pendings(ps) + [M.Pending(p.con.sock, p.cid, p.since)]
  {
  }

  lemma NoneLeft(jobs: seq<M.Job>, rest: seq<M.Job>)
    ensures jobs[|jobs|..] == [] && jobs[|jobs|..] + rest == rest
  {
  }

  /** Replacing one entry, seen from the front. */
  lemma OneDone(all: seq<M.Pending>, done: seq<M.Pending>, ps: seq<M.Pending>, idx: nat)
    requires idx < |ps| && |done| == idx && all == done + ps[idx..]
    ensures |all| == |ps| && all[idx] == ps[idx]
    ensures forall p :: all[idx := p] == (done + [p]) + ps[idx + 1..]
  {
  }

  lemma NothingLeft(ps: seq<M.Pending>, done: seq<M.Pending>)
    ensures ps[|ps|..] == [] && done + ps[|ps|..] == done
  {
  }

  class Server {
    const w: Setup
    const udp: UdpCon
    var currentCid: CId
    var msgBuff: Buffers
    var newCons: seq<NewCon>
    var disconnected: seq<(CId, Status)>
    var listener: seq<Option<M.Arrival>>
    var tcp: map<CId, Slot>
    var cidAddr: map<CId, Addr>
    var addrCid: map<Addr, CId>
    ghost var history: M.History

    ghost predicate Valid()
      reads this
    {
      && w.Sound() && |msgBuff| == w.parts.MidCount()
      && (forall c :: c in tcp <==> c in cidAddr)
      && udp.buff.Length == w.UdpSize()
      && (forall i :: 0 <= i < |newCons| ==> |newCons[i].con.buff| == w.TcpSize())
      && (forall c :: c in tcp ==> |tcp[c].buff| == w.TcpSize())
    }

    ghost function State(): M.State
      reads this, udp
    {
      M.State(currentCid, msgBuff, Pendings(newCons), disconnected, listener,
              Socks(tcp), udp.sock, cidAddr, addrCid, history)
    }

    /** What the loops below need to know about a valid server. */
    lemma Facts()
      requires Valid()
      ensures w.Sound() && |msgBuff| == |State().msgBuff| == |w.parts.deser| == w.parts.MidCount()
      ensures State().cidAddr == cidAddr && State().addrCid == addrCid
      ensures forall c :: c in State().tcp <==> c in tcp
    {
    }

    constructor (w: Setup, listener: seq<Option<M.Arrival>>, sock: UdpSocket)
      ensures (Valid() <==> w.Complete()) && this.w == w && fresh(udp) && fresh(udp.buff)
      ensures State() == M.Start(w, listener, sock)
    {
      this.w := w;
      this.udp := new UdpCon(sock, w.config.maxMsgSize);
      this.currentCid := 0;
      this.msgBuff := seq(|w.parts.tidMap|, _ => []);
      this.newCons, this.disconnected, this.listener := [], [], listener;
      this.tcp, this.cidAddr, this.addrCid := map[], map[], map[];
      this.history := M.History(0, [], [], [], map[]);
    }

    // ----------------------------------------------------------------- queries

    predicate Alive(cid: CId)
      reads this
    {
      cid in cidAddr
    }

    /** An iteration order of a map with these keys. */
    static ghost predicate Iterates(order: seq<CId>, keys: set<CId>) {
      NoDup(order) && forall c :: c in order <==> c in keys
    }

    // ----------------------------------------------------------------- sending

    /** The end of a borrow: the connection goes back to its place. */
    method PutBack(cid: CId, con: Slot)
      requires Valid() && cid in tcp && |con.buff| == w.TcpSize()
      modifies this`tcp
      ensures Valid() && forall c :: c in tcp <==> c in old(tcp)
      ensures State() == old(State()).(tcp := old(State()).tcp[cid := con.sock])
    {
      hide MsgTableParts.Shaped;
      SocksPut(tcp, cid, con);
      tcp := tcp[cid := con];
    }

    method SendTcp(cid: CId, mid: MId, payload: seq<byte>) returns (r: Io<()>)
      requires Valid()
      modifies this`tcp
      ensures Valid()
      ensures (r, State()) == M.SendTcp(w, old(State()), cid, mid, payload)
    {
      if cid !in tcp {
        return Err(InvalidData);
      }
      var con := new TcpCon.Borrow(tcp[cid]);
      r := con.Send(mid, payload);
      PutBack(cid, con.Value());
    }

    method SendUdp(cid: CId, mid: MId, payload: seq<byte>) returns (r: Io<()>)
      requires Valid()
      modifies udp
      ensures (r, State()) == M.SendUdp(w, old(State()), cid, mid, payload)
    {
      if cid !in cidAddr {
        return Err(InvalidData);
      }
      r := udp.SendTo(cidAddr[cid], mid, payload);
    }

    method SendTo(cid: CId, m: Msg) returns (r: Io<()>)
      requires Valid()
      modifies this`tcp, udp
      ensures Valid()
      ensures (r, State()) == M.SendTo(w, old(State()), cid, m)
    {
      if !w.parts.ValidTid(m.tid) {
        return Err(InvalidData);
      }
      var mid := w.parts.tidMap[m.tid];
      var b := w.serde.ser(m);
      if b.None? {
        return Err(InvalidData);
      }
      match w.parts.transports[mid] {
        case TCP => r := SendTcp(cid, mid, b.value);
        case UDP => r := SendUdp(cid, mid, b.value);
      }
    }

    method Broadcast(m: Msg, order: seq<CId>) returns (r: Io<()>)
      requires Valid() && Iterates(order, cidAddr.Keys)
      modifies this`tcp, udp
      ensures Valid()
      ensures (r, State()) == M.SendEach(w, old(State()), order, m)
    {
      hide M.SendTo;
      assert order[0..] == order;
      for i := 0 to |order|
        invariant Valid()
        invariant M.SendEach(w, old(State()), order, m) == M.SendEach(w, State(), order[i..], m)
      {
        assert order[i..][0] == order[i] && order[i..][1..] == order[i + 1..];
        r := SendTo(order[i], m);
        if r.Err? {
          return;
        }
      }
      assert order[|order|..] == [];
      r := Ok(());
    }

    method SendSpec(spec: CIdSpec, m: Msg, order: seq<CId>) returns (r: Io<()>)
      requires Valid() && Iterates(order, cidAddr.Keys)
      modifies this`tcp, udp
      ensures Valid()
      ensures (r, State()) == M.SendEach(w, old(State()), M.Matching(spec, order), m)
    {
      hide M.SendTo, M.Matching;
      assert order[0..] == order;
      for i := 0 to |order|
        invariant Valid()
        invariant M.SendEach(w, old(State()), M.Matching(spec, order), m)
                  == M.SendEach(w, State(), M.Matching(spec, order[i..]), m)
      {
        M.MatchingStep(spec, order, i);
        if spec.Matches(order[i]) {
          r := SendTo(order[i], m);
          if r.Err? {
            return;
          }
        }
      }
      assert order[|order|..] == [];
      M.MatchingEnd(spec);
      r := Ok(());
    }

    // ------------------------------------------------------------- private maps

    method NewCid() returns (cid: CId)
      modifies this`currentCid
      ensures cid == currentCid == M.NextCid(old(currentCid))
    {
      currentCid := (currentCid + 1) % CID_COUNT;
      cid := currentCid;
    }

    method AddTcpConCid(cid: CId, con: Slot)
      requires Valid() && |con.buff| == w.TcpSize()
      modifies this`tcp, this`addrCid, this`cidAddr
      ensures Valid()
      ensures State() == M.AddTcpCon(old(State()), cid, con.sock)
    {
      SocksPut(tcp, cid, con);
      var peerAddr := con.sock.peer;
      tcp := tcp[cid := con];
      addrCid := addrCid[peerAddr := cid];
      cidAddr := cidAddr[cid := peerAddr];
    }

    method RmTcpCon(cid: CId) returns (r: Io<()>)
      requires Valid()
      modifies this`tcp, this`addrCid, this`cidAddr, this`history
      ensures Valid()
      ensures r.Ok? <==> cid in old(tcp)
      ensures State() == if r.Ok? then M.RmTcpCon(old(State()), cid) else old(State())
    {
      if cid !in tcp {
        return Err(InvalidData);
      }
      SocksDrop(tcp, cid);
      history := history.(dropped := history.dropped[cid := tcp[cid].sock]);
      tcp := tcp - {cid};
      var addr := cidAddr[cid];
      cidAddr := cidAddr - {cid};
      addrCid := addrCid - {addr};
      r := Ok(());
    }

    // --------------------------------------------------------- new connections

    method StartIncoming(now: nat)
      requires Valid()
      modifies this
      ensures Valid() && State() == M.StartIncoming(w, old(State()), now)
    {
      hide M.Issue, MsgTableParts.Shaped, Pendings, Socks;
      while |newCons| < w.config.maxConHandle
        invariant Valid()
        invariant M.StartIncoming(w, State(), now) == M.StartIncoming(w, old(State()), now)
        decreases |listener|
      {
        if listener == [] {
          return;
        }
        var accepted := listener[0];
        listener := listener[1..];
        if accepted.None? {
          return;
        }
        Enroll(accepted.value, now);
      }
    }

    method Enroll(a: M.Arrival, now: nat)
      requires Valid()
      modifies this`currentCid, this`newCons, this`history
      ensures Valid() && State() == M.Issue(old(State()), a, now)
    {
      hide MsgTableParts.Shaped;
      var con := new TcpCon.FromStream(M.NewSocket(a), w.config.maxMsgSize);
      var cid := NewCid();
      PendingsPush(newCons, NewCon(con.Value(), cid, now));
      newCons := newCons + [NewCon(con.Value(), cid, now)];
      history := history.(issued := history.issued + 1);
    }

    method HandleConHelper(con: TcpCon, c: TypeId, since: nat, now: nat) returns (r: Outcome<Io<Msg>>)
      requires w.Sound() && con.Valid() && con.buff.Length == w.TcpSize()
      modifies con, con.buff
      ensures (r, con.sock) == M.PollCon(w, c, old(con.sock), since, now)
    {
      if now > since + w.config.timeout {
        return Returned(Err(TimedOut));
      }
      var got := con.Recv();
      if got.Err? {
        return Returned(Err(got.kind));
      }
      if got.value.mid != CONNECTION_TYPE_MID {
        return Returned(Err(InvalidData));
      }
      match w.serde.deser(w.parts.deser[CONNECTION_TYPE_MID].tid, got.value.payload) {
        case None => r := Returned(Err(InvalidData));
        case Some(m) => r := if m.tid != c then Panicked else Returned(Ok(m));
      }
    }

    method PollEntry(idx: nat, c: TypeId, now: nat) returns (r: Outcome<Io<Msg>>)
      requires Valid() && idx < |newCons|
      modifies this`newCons
      ensures Valid() && |newCons| == |old(newCons)|
      ensures var p := old(State()).newCons[idx];
              var (o, s) := M.PollCon(w, c, p.sock, p.since, now);
              r == o && Pendings(newCons) == old(State()).newCons[idx := p.(sock := s)]
    {
      hide M.PollCon, MsgTableParts.Shaped;
      var entry := newCons[idx];
      var con := new TcpCon.Borrow(entry.con);
      r := HandleConHelper(con, c, entry.since, now);
      newCons := newCons[idx := entry.(con := con.Value())];
    }

    /** One turn of the loop: reads, and asks the hook if there is a connection message. */
    method PollOne(idx: nat, hook: M.Hook, c: TypeId, now: nat, calls: seq<M.ConCall>)
      returns (r: Outcome<M.Verdict>, calls1: seq<M.ConCall>, asked: bool)
      requires Valid() && idx < |newCons|
      modifies this`newCons
      ensures Valid() && |newCons| == |old(newCons)|
      ensures var p := old(State()).newCons[idx];
              var (o, s) := M.PollCon(w, c, p.sock, p.since, now);
              && (r.Panicked? <==> o.Panicked?)
              && Pendings(newCons) == old(State()).newCons[idx := p.(sock := s)]
              && (r.Returned? ==> (r.value, calls1) == M.Weigh(hook, calls, p.cid, o.value) && asked == o.value.Ok?)
    {
      hide M.PollCon, MsgTableParts.Shaped;
      var cid := newCons[idx].cid;
      var o := PollEntry(idx, c, now);
      if o.Panicked? {
        return Panicked, calls, false;
      }
      match o.value {
        case Ok(m) =>
          var (accept, resp) := hook(calls, cid, m);
          return Returned(if accept then M.Accepted(resp) else M.Rejected(resp)), calls + [M.ConCall(cid, m, accept, resp)], true;
        case Err(kind) =>
          return Returned(if kind == WouldBlock then M.Waiting else M.Dead), calls, false;
      }
    }

    /** The loop of `handle_new_con` and `handle_new_cons` over the pending connections. */
    method PollPending(hook: M.Hook, c: TypeId, now: nat, one: bool) returns (r: Outcome<M.Lists>, calls: seq<M.ConCall>)
      requires Valid()
      modifies this`newCons
      ensures Valid()
      ensures var o := M.Poll(w, hook, c, now, one, old(State()).newCons, []);
              && (r.Panicked? <==> o.Panicked?)
              && (r.Returned? ==> Pendings(newCons) == o.value.cons && calls == o.value.calls && r.value == M.ListsOf(o.value.verdicts))
    {
      hide MsgTableParts.Shaped, M.Poll, M.PollCon, M.Join, Pendings, M.ListsOf;
      ghost var ps := Pendings(newCons);
      ghost var done: seq<M.Pending> := [];
      ghost var verdicts: seq<M.Verdict> := [];
      ghost var goal := M.Poll(w, hook, c, now, one, ps, []);
      calls := [];
      var lists := M.Lists([], [], []);
      var idx := 0;
      M.PollBegin(goal);
      M.ListsNone();
      Units(ps);
      while idx < |newCons|
        invariant 0 <= idx <= |newCons| == |ps| && Valid()
        invariant |verdicts| == idx == |done| && Pendings(newCons) == done + ps[idx..]
        invariant goal == M.Join(done, verdicts, M.Poll(w, hook, c, now, one, ps[idx..], calls))
        invariant lists == M.ListsOf(verdicts)
      {
        OneDone(Pendings(newCons), done, ps, idx);
        M.PollStep(w, hook, c, now, one, ps, idx, calls, done, verdicts);
        ghost var p := ps[idx].(sock := M.PollCon(w, c, ps[idx].sock, ps[idx].since, now).1);
        var v, asked;
        v, calls, asked := PollOne(idx, hook, c, now, calls);
        if v.Panicked? {
          return Panicked, calls;
        }
        lists := lists.Add(idx, v.value);
        M.ListsStep(verdicts, v.value);
        done, verdicts := done + [p], verdicts + [v.value];
        if asked && one {
          M.ListsWaiting(verdicts, |ps| - idx - 1);
          return Returned(lists), calls;
        }
        idx := idx + 1;
      }
      NothingLeft(ps, done);
      M.PollEnd(w, hook, c, now, one, calls, done, verdicts);
      r := Returned(lists);
    }

    method AcceptIncoming(cid: CId, con: Slot, resp: Msg)
      requires Valid() && |con.buff| == w.TcpSize()
      modifies this`tcp, this`addrCid, this`cidAddr, udp
      ensures Valid() && State() == M.AcceptIncoming(w, old(State()), cid, con.sock, resp)
    {
      AddTcpConCid(cid, con);
      var sent := SendTo(cid, resp);
    }

    method RejectIncoming(cid: CId, con: Slot, resp: Msg) returns (r: Outcome<()>)
      requires Valid() && |con.buff| == w.TcpSize()
      modifies this`history
      ensures Valid()
      ensures var o := M.RejectIncoming(w, old(State()), cid, con.sock, resp);
              (r.Panicked? <==> o.Panicked?) && (r.Returned? ==> State() == o.value)
    {
      if resp.tid != w.parts.ser[RESPONSE_TYPE_MID].tid {
        return Panicked;
      }
      var payload := w.serde.ser(resp);
      var own := new TcpCon.Borrow(con);
      if payload.Some? {
        var sent := own.Send(RESPONSE_TYPE_MID, payload.value);
      }
      history := history.(dropped := history.dropped[cid := own.sock]);
      r := Returned(());
    }

    /** Takes the entry at `idx` out of the pending connections. */
    method Remove(idx: nat) returns (r: Outcome<NewCon>)
      requires Valid()
      modifies this`newCons
      ensures Valid()
      ensures r.Panicked? <==> idx >= |old(newCons)|
      ensures r.Returned? ==> r.value == old(newCons)[idx] && State() == old(State()).(newCons := RemoveAt(old(State()).newCons, idx))
    {
      if idx >= |newCons| {
        return Panicked;
      }
      r := Returned(newCons[idx]);
      PendingsRemove(newCons, idx);
      newCons := RemoveAt(newCons, idx);
    }

    /** The loop over `accepted`; `rest` is what the loops after it replay. */
    method RetireAccepted(accepted: seq<M.Job>, ghost rest: seq<M.Job>) returns (r: Outcome<()>)
      requires Valid()
      requires forall j :: j in accepted ==> j.verdict.Accepted?
      modifies this, udp
      ensures Valid()
      ensures r.Panicked? ==> M.Carry(w, old(State()), accepted + rest).Panicked?
      ensures r.Returned? ==> M.Carry(w, old(State()), accepted + rest) == M.Carry(w, State(), rest)
    {
      hide M.AcceptIncoming, M.Carry, MsgTableParts.Shaped, Pendings, Socks;
      ghost var o := M.Carry(w, State(), accepted + rest);
      assert accepted[0..] == accepted;
      for i := 0 to |accepted|
        invariant Valid() && o == M.Carry(w, State(), accepted[i..] + rest)
      {
        ghost var before := State();
        M.CarryHead(w, before, accepted, i, rest);
        var p :- Remove(accepted[i].idx);
        AcceptIncoming(p.cid, p.con, accepted[i].verdict.resp);
      }
      NoneLeft(accepted, rest);
      r := Returned(());
    }

    method RetireRejected(rejected: seq<M.Job>, ghost rest: seq<M.Job>) returns (r: Outcome<()>)
      requires Valid()
      requires forall j :: j in rejected ==> j.verdict.Rejected?
      modifies this
      ensures Valid()
      ensures r.Panicked? ==> M.Carry(w, old(State()), rejected + rest).Panicked?
      ensures r.Returned? ==> M.Carry(w, old(State()), rejected + rest) == M.Carry(w, State(), rest)
    {
      hide M.RejectIncoming, M.Carry, MsgTableParts.Shaped, Pendings, Socks;
      ghost var o := M.Carry(w, State(), rejected + rest);
      assert rejected[0..] == rejected;
      for i := 0 to |rejected|
        invariant Valid() && o == M.Carry(w, State(), rejected[i..] + rest)
      {
        ghost var before := State();
        M.CarryHead(w, before, rejected, i, rest);
        var p :- Remove(rejected[i].idx);
        var done :- RejectIncoming(p.cid, p.con, rejected[i].verdict.resp);
      }
      NoneLeft(rejected, rest);
      r := Returned(());
    }

    method RetireDead(dead: seq<M.Job>) returns (r: Outcome<()>)
      requires Valid()
      requires forall j :: j in dead ==> j.verdict.Dead?
      modifies this
      ensures Valid()
      ensures r.Panicked? ==> M.Carry(w, old(State()), dead).Panicked?
      ensures r.Returned? ==> M.Carry(w, old(State()), dead) == Returned(State())
    {
      hide M.Carry, MsgTableParts.Shaped, Pendings, Socks;
      ghost var o := M.Carry(w, State(), dead);
      assert dead[0..] == dead;
      Units(dead);
      for i := 0 to |dead|
        invariant Valid() && o == M.Carry(w, State(), dead[i..])
      {
        ghost var before := State();
        M.CarryHead(w, before, dead, i, []);
        Units(dead[i..]);
        Units(dead[i + 1..]);
        var p :- Remove(dead[i].idx);
        history := history.(dropped := history.dropped[p.cid := p.con.sock]);
      }
      NoneLeft(dead, []);
      M.CarryEnd(w, State());
      r := Returned(());
    }

    /** What the two methods below share; the source spells it out twice. */
    method HandleNew(hook: M.Hook, c: TypeId, now: nat, one: bool) returns (r: Outcome<nat>)
      requires Valid()
      modifies this, udp
      ensures Valid()
      ensures M.Did(r, State(), M.HandleNew(w, old(State()), hook, c, now, one))
    {
      hide M.Poll, M.Carry, M.StartIncoming, MsgTableParts.Shaped, M.Pick, Pendings, Socks, M.PollCon, M.Settle;
      StartIncoming(now);
      if newCons == [] {
        return Returned(0);
      }
      var polled, calls := PollPending(hook, c, now, one);
      var lists :- polled;
      history := history.(asked := history.asked + calls);
      ghost var p := M.Poll(w, hook, c, now, one, M.StartIncoming(w, old(State()), now).newCons, []).value;
      M.PickKind(p.verdicts);
      Assoc(lists.accepted, lists.rejected, lists.dead);
      var done :- RetireAccepted(lists.accepted, lists.rejected + lists.dead);
      done :- RetireRejected(lists.rejected, lists.dead);
      done :- RetireDead(lists.dead);
      r := Returned(|lists.accepted| + |lists.rejected|);
    }

    method HandleNewCon(hook: M.Hook, c: TypeId, now: nat) returns (r: Outcome<bool>)
      requires Valid()
      modifies this, udp
      ensures Valid()
      ensures M.Did(r, State(), M.HandleNewCon(w, old(State()), hook, c, now))
    {
      hide M.HandleNew;
      var n :- HandleNew(hook, c, now, true);
      r := Returned(n > 0);
    }

    method HandleNewCons(hook: M.Hook, c: TypeId, now: nat) returns (r: Outcome<nat>)
      requires Valid()
      modifies this, udp
      ensures Valid()
      ensures M.Did(r, State(), M.HandleNew(w, old(State()), hook, c, now, false))
    {
      r := HandleNew(hook, c, now, false);
    }

    // ------------------------------------------------------------- disconnects

    method Disconnect(cid: CId, m: Msg) returns (r: Outcome<Io<()>>)
      requires Valid()
      modifies this, udp
      ensures Valid()
      ensures M.Did(r, State(), M.Disconnect(w, old(State()), cid, m))
    {
      hide MsgTableParts.Shaped, M.SendTo;
      if !Alive(cid) {
        return Returned(Err(InvalidData));
      }
      var sent := SendTo(cid, m);
      if sent.Err? {
        return Returned(sent);
      }
      if cid !in tcp {
        return Panicked;
      }
      var con := new TcpCon.Borrow(tcp[cid]);
      var closed := con.Close();
      PutBack(cid, con.Value());
      if closed.Err? {
        return Returned(closed);
      }
      Enqueue(cid, Closed);
      r := Returned(closed);
    }

    method Enqueue(cid: CId, status: Status)
      requires Valid()
      modifies this`disconnected, this`history
      ensures Valid() && State() == M.Queue(old(State()), cid, status)
    {
      disconnected := disconnected + [(cid, status)];
      history := history.(queued := history.queued + [(cid, status)]);
    }

    method Pop() returns (cid: CId, status: Status)
      requires Valid() && disconnected != []
      modifies this`disconnected
      ensures Valid() && (cid, status) == old(disconnected)[0]
      ensures State() == old(State()).(disconnected := old(disconnected)[1..])
    {
      cid, status := disconnected[0].0, disconnected[0].1;
      disconnected := disconnected[1..];
    }

    /** Calls the hook, which the history records, and forgets the connection. */
    method Tell(cid: CId, status: Status)
      requires Valid() && Alive(cid)
      modifies this
      ensures Valid() && disconnected == old(disconnected)
      ensures cid in old(State()).tcp && State() == M.Tell(old(State()), cid, status)
    {
      hide MsgTableParts.Shaped;
      history := history.(told := history.told + [(cid, status)]);
      var gone := RmTcpCon(cid);
      assert gone.Ok?; // `unwrap` does not panic
    }

    method HandleDisconnect() returns (r: bool)
      requires Valid()
      modifies this
      ensures Valid()
      ensures (r, State()) == M.HandleDisconnect(old(State()))
    {
      hide M.Tell, MsgTableParts.Shaped, Pendings;
      while disconnected != []
        invariant Valid() && M.HandleDisconnect(State()) == M.HandleDisconnect(old(State()))
        decreases |disconnected|
      {
        var cid, status := Pop();
        if !Alive(cid) {
          continue;
        }
        Tell(cid, status);
        return true;
      }
      r := false;
    }

    method HandleDisconnects() returns (i: nat)
      requires Valid()
      modifies this
      ensures Valid()
      ensures (i, State()) == M.HandleDisconnects(old(State()))
    {
      hide M.Tell, MsgTableParts.Shaped, Pendings;
      i := 0;
      while disconnected != []
        invariant Valid()
        invariant var (n, st) := M.HandleDisconnects(State()); (i + n, st) == M.HandleDisconnects(old(State()))
        decreases |disconnected|
      {
        var cid, status := Pop();
        if !Alive(cid) {
          continue;
        }
        Tell(cid, status);
        i := i + 1;
      }
    }

    // --------------------------------------------------------------- receiving

    method RecvTcp(cid: CId) returns (r: Outcome<Io<Letter>>)
      requires Valid()
      modifies this`tcp
      ensures Valid() && forall c :: c in tcp <==> c in old(tcp)
      ensures cid !in old(tcp) ==> r == Returned(Err(InvalidData)) && State() == old(State())
      ensures cid in old(tcp) ==>
                var (o, s) := RecvMsgOn(w, cid, old(State()).tcp[cid]);
                r == o && (o.Returned? && o.value.Ok? ==> o.value.value.mid < |msgBuff| == |old(State()).msgBuff|) && State() == old(State()).(tcp := old(State()).tcp[cid := s])
    {
      assert |w.parts.deser| == |msgBuff|;
      hide MsgTableParts.Shaped;
      if cid !in tcp {
        return Returned(Err(InvalidData));
      }
      var con := new TcpCon.Borrow(tcp[cid]);
      var got := con.Recv();
      PutBack(cid, con.Value());
      if got.Err? {
        return Returned(Err(got.kind));
      }
      var m :- w.Decode(got.value.mid, got.value.payload);
      if m.Err? {
        return Returned(Err(m.kind));
      }
      r := Returned(Ok(Letter(got.value.mid, ErasedNetMsg(cid, None, m.value))));
    }

    /** Whether the connection is done yielding messages, and what to add to the count. */
    method HandleTcpMsg(cid: CId, msg: Io<Letter>) returns (done: bool, n: nat)
      requires Valid() && (msg.Ok? ==> msg.value.mid < |msgBuff|)
      modifies this`msgBuff, this`disconnected, this`history
      ensures Valid() && |msgBuff| == |old(msgBuff)|
      ensures match msg
              case Err(kind) =>
                done && n == 0
                && State() == if kind == WouldBlock then old(State()) else M.Queue(old(State()), cid, Dropped(kind))
              case Ok(l) =>
                n == 1 && (done <==> l.mid == DISCONNECT_TYPE_MID)
                && State() == if done then M.Queue(old(State()), cid, Disconnected(l.msg.msg))
                              else old(State()).(msgBuff := Push(old(State()).msgBuff, l))
    {
      hide MsgTableParts.Shaped;
      match msg {
        case Err(kind) =>
          if kind != WouldBlock {
            Enqueue(cid, Dropped(kind));
          }
          return true, 0;
        case Ok(l) =>
          if l.mid == DISCONNECT_TYPE_MID {
            Enqueue(cid, Disconnected(l.msg.msg));
            return true, 1;
          }
          msgBuff := Push(msgBuff, l);
          return false, 1;
      }
    }

    /** One turn of the inner loop of `recv_msgs`: the stream was at `s` and had given `got`. */
    method RecvOnce(cid: CId, ghost st: M.State, ghost s: Socket, ghost got: seq<Letter>) returns (r: Outcome<(bool, nat)>, ghost l: Option<Letter>)
      requires Valid() && cid in tcp && |st.msgBuff| == |msgBuff|
      requires Below(got, |st.msgBuff|)
      requires State() == M.Reading(st, cid, s, got)
      modifies this`tcp, this`msgBuff, this`disconnected, this`history
      ensures Valid() && |msgBuff| == |old(msgBuff)| && forall c :: c in tcp <==> c in old(tcp)
      ensures r.Panicked? ==> After(got, Drain(w, cid, s)).Panicked?
      ensures r.Returned? && r.value.0 ==>
                var o := After(got, Drain(w, cid, s));
                o.Returned? && o.value.got == got && M.Finish(st, cid, o) == Returned((State(), |got| + r.value.1))
      ensures r.Returned? && !r.value.0 ==>
                var t := RecvMsgOn(w, cid, s).1;
                && l.Some? && Below(got + [l.value], |st.msgBuff|) && r.value.1 == 1 && |Upcoming(t)| < |Upcoming(s)|
                && After(got, Drain(w, cid, s)) == After(got + [l.value], Drain(w, cid, t))
                && State() == M.Reading(st, cid, t, got + [l.value])
    {
      hide *;
      ghost var t := RecvMsgOn(w, cid, s).1;
      l := None;
      DrainStep(w, cid, s, got);
      M.ReadingMoves(st, cid, s, t, got);
      var o := RecvTcp(cid);
      if o.Panicked? {
        return Panicked, None;
      }
      var msg := o.value;
      M.ReadingMoves(st, cid, t, t, got);
      var done, n := HandleTcpMsg(cid, msg);
      if !done {
        M.ReadingGets(st, cid, t, got, msg.value);
        l := Some(msg.value);
      } else {
        M.FinishIs(st, cid, t, got, After(got, Drain(w, cid, s)).value.end);
      }
      r := Returned((done, n));
    }

    /** The inner loop of `recv_msgs` for one connection. */
    method RecvCon(cid: CId) returns (r: Outcome<nat>)
      requires Valid() && cid in tcp
      modifies this`tcp, this`msgBuff, this`disconnected, this`history
      ensures Valid() && forall c :: c in tcp <==> c in old(tcp)
      ensures M.Did(r, State(), M.RecvCon(w, old(State()), cid))
    {
      hide *;
      Facts();
      ghost var st := State();
      ghost var s := st.tcp[cid];
      ghost var got: seq<Letter> := [];
      ghost var goal := Drain(w, cid, s);
      ghost var want := M.RecvCon(w, st, cid);
      var i := 0;
      AfterNothing(goal);
      M.ReadingNothing(st, cid);
      M.RecvConIs(w, st, cid);
      while true
        invariant Valid() && (forall c :: c in tcp <==> c in old(tcp)) && |st.msgBuff| == |msgBuff|
        invariant goal == After(got, Drain(w, cid, s))
        invariant i == |got| && Below(got, |st.msgBuff|)
        invariant State() == M.Reading(st, cid, s, got)
        decreases |Upcoming(s)|
      {
        ghost var t := RecvMsgOn(w, cid, s).1;
        var turn;
        ghost var l;
        turn, l := RecvOnce(cid, st, s, got);
        M.DidReturn(i, State(), want);
        if turn.Panicked? {
          return Panicked;
        }
        i := i + turn.value.1;
        if turn.value.0 {
          M.DidReturn(i, State(), want);
          return Returned(i);
        }
        s, got := t, got + [l.value];
      }
    }

    method RecvUdp() returns (r: Outcome<Io<Letter>>)
      requires Valid()
      modifies udp, udp.buff
      ensures var (o, u) := M.RecvUdpOn(w, cidAddr, addrCid, old(State()).udp);
              r == o && (r.Returned? && r.value.Ok? ==> r.value.value.mid < |w.parts.deser|) && State() == old(State()).(udp := u)
    {
      hide MsgTableParts.Shaped;
      var got :- udp.RecvFrom();
      if got.Err? {
        return Returned(Err(got.kind));
      }
      var m :- w.Decode(got.value.mid, got.value.payload);
      if m.Err? {
        return Returned(Err(m.kind));
      }
      if got.value.from !in addrCid || !Alive(addrCid[got.value.from]) {
        return Returned(Err(Other));
      }
      r := Returned(Ok(Letter(got.value.mid, ErasedNetMsg(addrCid[got.value.from], Some(got.value.time), m.value))));
    }

    method HandleUdpMsg(msg: Io<Letter>) returns (done: bool, n: nat)
      requires Valid() && (msg.Ok? ==> msg.value.mid < |msgBuff|)
      modifies this`msgBuff
      ensures Valid() && |msgBuff| == |old(msgBuff)|
      ensures done == msg.Err? && n == (if done then 0 else 1)
      ensures State() == if done then old(State()) else old(State()).(msgBuff := Push(old(State()).msgBuff, msg.value))
    {
      if msg.Err? {
        return true, 0;
      }
      msgBuff := Push(msgBuff, msg.value);
      return false, 1;
    }

    /** The second loop of `recv_msgs`. */
    method RecvUdps() returns (r: Outcome<nat>)
      requires Valid()
      modifies this`msgBuff, udp, udp.buff
      ensures Valid()
      ensures M.Did(r, State(), M.RecvUdps(w, old(State())))
    {
      hide *;
      Facts();
      ghost var st := State();
      ghost var u := st.udp;
      ghost var goal := M.DrainUdp(w, st.cidAddr, st.addrCid, u);
      ghost var want := M.RecvUdps(w, st);
      ghost var got: seq<Letter> := [];
      var i := 0;
      M.RecvUdpsIs(w, st);
      while true
        invariant Valid() && |st.msgBuff| == |msgBuff|
        invariant goal == M.AfterUdp(got, M.DrainUdp(w, cidAddr, addrCid, u))
        invariant i == |got| && Below(got, |st.msgBuff|)
        invariant State() == M.ReadingUdp(st, u, got)
        decreases |u.inbox|
      {
        ghost var v := M.RecvUdpOn(w, cidAddr, addrCid, u).1;
        M.DrainUdpStep(w, cidAddr, addrCid, u, got);
        M.ReadingUdpSteps(st, u, v, got);
        var o := RecvUdp();
        if o.Panicked? {
          M.DidReturn(i, State(), want);
          return Panicked;
        }
        M.ReadingUdpSteps(st, v, v, got);
        var done, n := HandleUdpMsg(o.value);
        i := i + n;
        if done {
          M.DidReturn(i, State(), want);
          return Returned(i);
        }
        M.ReadingUdpGets(st, v, got, o.value.value);
        u, got := v, got + [o.value.value];
      }
    }

    /** The first loop of `recv_msgs`. */
    method RecvTcps(order: seq<CId>) returns (r: Outcome<nat>)
      requires Valid() && forall c :: c in order ==> c in tcp
      modifies this`tcp, this`msgBuff, this`disconnected, this`history
      ensures Valid()
      ensures M.Did(r, State(), M.RecvTcps(w, old(State()), order))
    {
      hide *;
      Facts();
      ghost var goal := M.RecvTcps(w, State(), order);
      var i := 0;
      assert order[0..] == order;
      M.PlusNothing(goal);
      for k := 0 to |order|
        invariant Valid() && forall c :: c in order ==> c in tcp
        invariant w.Sound() && |State().msgBuff| == w.parts.MidCount() && forall c :: c in order ==> c in State().tcp
        invariant goal == M.Plus(i, M.RecvTcps(w, State(), order[k..]))
      {
        Facts();
        ghost var turn := M.RecvCon(w, State(), order[k]);
        M.RecvTcpsStep(w, State(), order, k, i);
        var n := RecvCon(order[k]);
        M.DidIs(n, State(), turn);
        if n.Panicked? {
          M.DidReturn(i, State(), goal);
          return Panicked;
        }
        i := i + n.value;
        Facts();
      }
      M.RecvTcpsEnd(w, State(), order, i);
      M.DidReturn(i, State(), goal);
      r := Returned(i);
    }

    method RecvMsgs(order: seq<CId>) returns (r: Outcome<nat>)
      requires Valid() && Iterates(order, cidAddr.Keys)
      modifies this`tcp, this`msgBuff, this`disconnected, this`history, udp, udp.buff
      ensures Valid()
      ensures forall c :: c in order ==> c in old(State()).tcp
      ensures M.Did(r, State(), M.RecvMsgs(w, old(State()), order))
    {
      hide MsgTableParts.Shaped, Pendings, M.RecvTcps, M.RecvUdps;
      var a :- RecvTcps(order);
      var b :- RecvUdps();
      r := Returned(a + b);
    }

    method RecvSpec(tid: TypeId, spec: CIdSpec) returns (r: Outcome<seq<ErasedNetMsg>>)
      requires Valid()
      ensures r == M.RecvSpec(w, State(), tid, spec)
    {
      if !w.parts.ValidTid(tid) {
        return Panicked;
      }
      var b := msgBuff[w.parts.tidMap[tid]];
      var got: seq<ErasedNetMsg> := [];
      hide M.FromSpec, MsgTableParts.Shaped, Pendings, Socks;
      assert b[0..] == b;
      Units(M.FromSpec(b, spec));
      for i := 0 to |b|
        invariant got + M.FromSpec(b[i..], spec) == M.FromSpec(b, spec) && M.AllOf(got, tid)
      {
        M.FromSpecStep(b, spec, got, i);
        if spec.Matches(b[i].cid) {
          if b[i].msg.tid != tid {
            assert b[i] in got + [b[i]];
            return Panicked;
          }
          got := got + [b[i]];
        }
      }
      assert b[|b|..] == [];
      M.FromSpecEnd(spec);
      Units(got);
      r := Returned(got);
    }

    method ClearMsgs()
      requires Valid()
      modifies this`msgBuff
      ensures Valid() && State() == M.ClearMsgs(old(State()))
    {
      var i := 0;
      while i < |msgBuff|
        invariant 0 <= i <= |msgBuff| == |old(msgBuff)|
        invariant forall k :: 0 <= k < i ==> msgBuff[k] == []
      {
        msgBuff := msgBuff[i := []];
        i := i + 1;
      }
      assert msgBuff == seq(|old(msgBuff)|, _ => []);
    }
  }
}
