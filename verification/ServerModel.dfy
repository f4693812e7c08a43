/** The server (`src/server.rs`) as a state machine on values: what each call does
    to the state. `Server.dfy` proves the methods against these functions. */
module ServerModel {
  import opened Prelude
  import opened Net
  import opened MessageTable
  import opened Tcp
  import opened Udp
  import opened Inbound

  /** A stream the listener hands out: nothing was read from it or written to it. */
  datatype Arrival = Arrival(peer: Addr, feed: Feed, room: nat, shutFails: bool)

  datatype Pending = Pending(sock: Socket, cid: CId, since: nat)

  /** One call of the connection hook and its answer. */
  datatype ConCall = ConCall(cid: CId, msg: Msg, accept: bool, resp: Msg)

  /** The connection hook may remember the calls it got before. */
  type Hook = (seq<ConCall>, CId, Msg) -> (bool, Msg)

  /** What happened so far: how many ids were issued, the calls of both hooks, every
      disconnect ever queued, and the final state of the streams that were dropped. */
  datatype History = History(
    issued: nat,
    asked: seq<ConCall>,
    queued: seq<(CId, Status)>,
    told: seq<(CId, Status)>,
    dropped: map<CId, Socket>)

  datatype State = State(
    currentCid: CId,
    msgBuff: Buffers,
    newCons: seq<Pending>,
    disconnected: seq<(CId, Status)>,
    listener: seq<Option<Arrival>>,
    tcp: map<CId, Socket>,
    udp: UdpSocket,
    cidAddr: map<CId, Addr>,
    addrCid: map<Addr, CId>,
    history: History)
  {
    predicate Alive(cid: CId) {
      cid in cidAddr
    }
  }

  /** A method that ended with `r` in state `st` did what `o` says. After a panic
      nothing is said about the state. */
  ghost predicate Did<T(!new)>(r: Outcome<T>, st: State, o: Outcome<(State, T)>) {
    match o
    case Panicked => r.Panicked?
    case Returned(v) => r == Returned(v.1) && st == v.0
  }

  lemma DidReturn<T(!new)>(v: T, st: State, o: Outcome<(State, T)>)
    ensures Did(Returned(v), st, o) <==> o == Returned((st, v))
    ensures Did(Panicked, st, o) <==> o == Panicked
  {
  }

  lemma DidIs<T(!new)>(r: Outcome<T>, st: State, o: Outcome<(State, T)>)
    requires Did(r, st, o)
    ensures r.Panicked? <==> o.Panicked?
    ensures r.Returned? ==> o == Returned((st, r.value))
  {
  }

  // ------------------------------------------------------------------- sending

  function SendTcp(w: Setup, st: State, cid: CId, mid: MId, payload: seq<byte>): (Io<()>, State) {
    if cid !in st.tcp then (Err(InvalidData), st)
    else
      var (r, s) := SendOn(w.TcpSize(), st.tcp[cid], Frame(mid, payload));
      (r, st.(tcp := st.tcp[cid := s]))
  }

  function SendUdp(w: Setup, st: State, cid: CId, mid: MId, payload: seq<byte>): (Io<()>, State) {
    if cid !in st.cidAddr then (Err(InvalidData), st)
    else
      var (r, u) := SendToOn(w.UdpSize(), st.udp, st.cidAddr[cid], mid, payload);
      (r, st.(udp := u))
  }

  function SendTo(w: Setup, st: State, cid: CId, m: Msg): (Io<()>, State)
    requires w.Sound()
  {
    match w.Route(m)
    case None => (Err(InvalidData), st)
    case Some((mid, TCP, b)) => SendTcp(w, st, cid, mid, b)
    case Some((mid, UDP, b)) => SendUdp(w, st, cid, mid, b)
  }

  /** Sending to one id after the other until a send fails. */
  function SendEach(w: Setup, st: State, cids: seq<CId>, m: Msg): (Io<()>, State)
    requires w.Sound()
    decreases |cids|
  {
    if cids == [] then (Ok(()), st)
    else
      var (r, st1) := SendTo(w, st, cids[0], m);
      if r.Err? then (r, st1) else SendEach(w, st1, cids[1..], m)
  }

  function Matching(spec: CIdSpec, cids: seq<CId>): seq<CId> {
    if cids == [] then []
    else (if spec.Matches(cids[0]) then [cids[0]] else []) + Matching(spec, cids[1..])
  }

  lemma MatchingEnd(spec: CIdSpec)
    ensures Matching(spec, []) == []
  {
  }

  lemma MatchingStep(spec: CIdSpec, cids: seq<CId>, i: nat)
    requires i < |cids|
    ensures !spec.Matches(cids[i]) ==> Matching(spec, cids[i..]) == Matching(spec, cids[i + 1..])
    ensures spec.Matches(cids[i]) ==>
              Matching(spec, cids[i..]) != [] && Matching(spec, cids[i..])[0] == cids[i]
              && Matching(spec, cids[i..])[1..] == Matching(spec, cids[i + 1..])
  {
    assert cids[i..][0] == cids[i] && cids[i..][1..] == cids[i + 1..];
    Units(Matching(spec, cids[i + 1..]));
  }

  // --------------------------------------------------- the maps of connections

  function AddTcpCon(st: State, cid: CId, s: Socket): State {
    st.(tcp := st.tcp[cid := s],
        addrCid := st.addrCid[s.peer := cid],
        cidAddr := st.cidAddr[cid := s.peer])
  }

  function Drop(st: State, cid: CId, s: Socket): State {
    st.(history := st.history.(dropped := st.history.dropped[cid := s]))
  }

  function RmTcpCon(st: State, cid: CId): State
    requires cid in st.tcp && cid in st.cidAddr
  {
    Drop(st, cid, st.tcp[cid])
      .(tcp := st.tcp - {cid}, cidAddr := st.cidAddr - {cid}, addrCid := st.addrCid - {st.cidAddr[cid]})
  }

  // ----------------------------------------------------------- new connections

  /** `current_cid += 1` on a u32. */
  function NextCid(c: CId): CId {
    (c + 1) % CID_COUNT
  }

  function NewSocket(a: Arrival): Socket {
    Socket(a.peer, a.feed, 0, [], a.room, false, a.shutFails, true)
  }

  function Issue(st: State, a: Arrival, now: nat): State {
    st.(currentCid := NextCid(st.currentCid),
        newCons := st.newCons + [Pending(NewSocket(a), NextCid(st.currentCid), now)],
        history := st.history.(issued := st.history.issued + 1))
  }

  /** Accepting streams while there is space for them and the listener has one. */
  function StartIncoming(w: Setup, st: State, now: nat): State
    decreases |st.listener|
  {
    if |st.newCons| >= w.config.maxConHandle || st.listener == [] then st
    else
      var st1 := st.(listener := st.listener[1..]);
      match st.listener[0]
      case None => st1
      case Some(a) => StartIncoming(w, Issue(st1, a, now), now)
  }

  /** `handle_con_helper`: the connection message of a pending connection, if it is there. */
  function PollCon(w: Setup, c: TypeId, sock: Socket, since: nat, now: nat): (Outcome<Io<Msg>>, Socket)
    requires w.Sound()
  {
    if now > since + w.config.timeout then (Returned(Err(TimedOut)), sock)
    else
      var (r, s) := RecvOn(w.TcpSize(), sock);
      match r
      case Err(kind) => (Returned(Err(kind)), s)
      case Ok(f) =>
        if f.mid != CONNECTION_TYPE_MID then (Returned(Err(InvalidData)), s)
        else match w.serde.deser(w.parts.deser[CONNECTION_TYPE_MID].tid, f.payload)
          case None => (Returned(Err(InvalidData)), s)
          case Some(m) => if m.tid != c then (Panicked, s) else (Returned(Ok(m)), s)
  }

  datatype Verdict = Accepted(resp: Msg) | Rejected(resp: Msg) | Dead | Waiting

  datatype Kind = KAccepted | KRejected | KDead

  predicate Is(v: Verdict, k: Kind) {
    match k
    case KAccepted => v.Accepted?
    case KRejected => v.Rejected?
    case KDead => v.Dead?
  }

  datatype Polled = Polled(cons: seq<Pending>, verdicts: seq<Verdict>, calls: seq<ConCall>)

  function Waitings(n: nat): (r: seq<Verdict>)
    ensures |r| == n && forall i :: 0 <= i < n ==> r[i] == Waiting
  {
    seq(n, _ => Waiting)
  }

  /** What becomes of a pending connection, and the hook calls after it. */
  function Weigh(hook: Hook, calls: seq<ConCall>, cid: CId, got: Io<Msg>): (Verdict, seq<ConCall>) {
    match got
    case Ok(m) =>
      var (accept, resp) := hook(calls, cid, m);
      (if accept then Accepted(resp) else Rejected(resp), calls + [ConCall(cid, m, accept, resp)])
    case Err(kind) => (if kind == WouldBlock then Waiting else Dead, calls)
  }

  /** The loop over the pending connections, after `calls` of the hook; with `one`
      it ends at the first connection the hook is called for. */
  function Poll(w: Setup, hook: Hook, c: TypeId, now: nat, one: bool, ps: seq<Pending>, calls: seq<ConCall>): (r: Outcome<Polled>)
    requires w.Sound()
    ensures r.Returned? ==> |r.value.cons| == |ps| == |r.value.verdicts|
    decreases |ps|
  {
    if ps == [] then Returned(Polled([], [], calls))
    else
      var (o, s) := PollCon(w, c, ps[0].sock, ps[0].since, now);
      var p := ps[0].(sock := s);
      var got :- o;
      var (v, calls1) := Weigh(hook, calls, ps[0].cid, got);
      if one && got.Ok? then Returned(Polled([p] + ps[1..], [v] + Waitings(|ps| - 1), calls1))
      else Join([p], [v], Poll(w, hook, c, now, one, ps[1..], calls1))
  }

  function Join(cons: seq<Pending>, verdicts: seq<Verdict>, rest: Outcome<Polled>): (r: Outcome<Polled>)
    ensures r.Panicked? <==> rest.Panicked?
    ensures r.Returned? ==> |r.value.cons| == |cons| + |rest.value.cons| && |r.value.verdicts| == |verdicts| + |rest.value.verdicts|
  {
    match rest
    case Panicked => Panicked
    case Returned(q) => Returned(Polled(cons + q.cons, verdicts + q.verdicts, q.calls))
  }

  lemma JoinJoin(cons: seq<Pending>, verdicts: seq<Verdict>, p: Pending, v: Verdict, rest: Outcome<Polled>)
    ensures Join(cons, verdicts, Join([p], [v], rest)) == Join(cons + [p], verdicts + [v], rest)
  {
    if rest.Returned? {
      Assoc(cons, [p], rest.value.cons);
      Assoc(verdicts, [v], rest.value.verdicts);
    }
  }

  /** One turn of the loop, with `cons` and `verdicts` already done. */
  lemma PollStep(w: Setup, hook: Hook, c: TypeId, now: nat, one: bool, ps: seq<Pending>, idx: nat, calls: seq<ConCall>,
                 cons: seq<Pending>, verdicts: seq<Verdict>)
    requires w.Sound() && idx < |ps|
    ensures var (o, s) := PollCon(w, c, ps[idx].sock, ps[idx].since, now);
            var p := ps[idx].(sock := s);
            var all := Join(cons, verdicts, Poll(w, hook, c, now, one, ps[idx..], calls));
            if o.Panicked? then all.Panicked?
            else
              var (v, calls1) := Weigh(hook, calls, p.cid, o.value);
              all == if one && o.value.Ok? then
                       Returned(Polled((cons + [p]) + ps[idx + 1..], (verdicts + [v]) + Waitings(|ps| - idx - 1), calls1))
                     else Join(cons + [p], verdicts + [v], Poll(w, hook, c, now, one, ps[idx + 1..], calls1))
  {
    assert ps[idx..][0] == ps[idx] && ps[idx..][1..] == ps[idx + 1..];
    hide PollCon, MsgTableParts.Shaped;
    var (o, s) := PollCon(w, c, ps[idx].sock, ps[idx].since, now);
    var p := ps[idx].(sock := s);
    if o.Returned? {
      var (v, calls1) := Weigh(hook, calls, p.cid, o.value);
      if one && o.value.Ok? {
        Assoc(cons, [p], ps[idx + 1..]);
        Assoc(verdicts, [v], Waitings(|ps| - idx - 1));
      } else {
        JoinJoin(cons, verdicts, p, v, Poll(w, hook, c, now, one, ps[idx + 1..], calls1));
      }
    }
  }

  lemma PollEnd(w: Setup, hook: Hook, c: TypeId, now: nat, one: bool, calls: seq<ConCall>, cons: seq<Pending>, verdicts: seq<Verdict>)
    requires w.Sound()
    ensures Join(cons, verdicts, Poll(w, hook, c, now, one, [], calls)) == Returned(Polled(cons, verdicts, calls))
  {
    Units(cons);
    Units(verdicts);
  }

  lemma PollBegin(o: Outcome<Polled>)
    ensures Join([], [], o) == o
  {
    if o.Returned? {
      Units(o.value.cons);
      Units(o.value.verdicts);
    }
  }

  /** One entry of the lists `accepted`, `rejected` and `dead`. */
  datatype Job = Job(idx: nat, verdict: Verdict)

  /** The list of one kind, in the order the loop builds it. */
  function Pick(vs: seq<Verdict>, k: Kind): (r: seq<Job>)
    ensures |r| <= |vs|
  {
    if vs == [] then []
    else
      var n := |vs| - 1;
      Pick(vs[..n], k) + if Is(vs[n], k) then [Job(n, vs[n])] else []
  }

  lemma {:induction false} PickWaiting(vs: seq<Verdict>, n: nat, k: Kind)
    ensures Pick(vs + Waitings(n), k) == Pick(vs, k)
    decreases n
  {
    if n == 0 {
      assert vs + Waitings(0) == vs;
    } else {
      var all := vs + Waitings(n);
      assert all[..|all| - 1] == vs + Waitings(n - 1);
      assert all[|all| - 1] == Waiting;
      PickWaiting(vs, n - 1, k);
      Units(Pick(vs, k));
    }
  }

  lemma PickStep(vs: seq<Verdict>, v: Verdict, k: Kind)
    ensures Pick(vs + [v], k) == Pick(vs, k) + if Is(v, k) then [Job(|vs|, v)] else []
  {
    var all := vs + [v];
    assert all[..|all| - 1] == vs && all[|all| - 1] == v;
  }

  /** The local variables `accepted`, `rejected` and `dead`. */
  datatype Lists = Lists(accepted: seq<Job>, rejected: seq<Job>, dead: seq<Job>) {
    function Add(idx: nat, v: Verdict): Lists {
      match v
      case Accepted(_) => this.(accepted := accepted + [Job(idx, v)])
      case Rejected(_) => this.(rejected := rejected + [Job(idx, v)])
      case Dead => this.(dead := dead + [Job(idx, v)])
      case Waiting => this
    }
  }

  function ListsOf(vs: seq<Verdict>): Lists {
    Lists(Pick(vs, KAccepted), Pick(vs, KRejected), Pick(vs, KDead))
  }

  lemma ListsStep(vs: seq<Verdict>, v: Verdict)
    ensures ListsOf(vs + [v]) == ListsOf(vs).Add(|vs|, v)
  {
    PickStep(vs, v, KAccepted);
    PickStep(vs, v, KRejected);
    PickStep(vs, v, KDead);
    Units(Pick(vs, KAccepted));
    Units(Pick(vs, KRejected));
    Units(Pick(vs, KDead));
  }

  lemma ListsWaiting(vs: seq<Verdict>, n: nat)
    ensures ListsOf(vs + Waitings(n)) == ListsOf(vs)
  {
    PickWaiting(vs, n, KAccepted);
    PickWaiting(vs, n, KRejected);
    PickWaiting(vs, n, KDead);
  }

  lemma ListsNone()
    ensures ListsOf([]) == Lists([], [], [])
  {
  }

  /** The lists hold what their names say. */
  lemma {:induction false} PickKind(vs: seq<Verdict>)
    ensures forall k: Kind, j :: j in Pick(vs, k) ==> Is(j.verdict, k)
    decreases |vs|
  {
    if vs != [] {
      PickKind(vs[..|vs| - 1]);
    }
  }

  /** The order in which the entries are removed. */
  function Plan(vs: seq<Verdict>): seq<Job> {
    Pick(vs, KAccepted) + Pick(vs, KRejected) + Pick(vs, KDead)
  }

  function AcceptIncoming(w: Setup, st: State, cid: CId, s: Socket, resp: Msg): State
    requires w.Sound()
  {
    SendTo(w, AddTcpCon(st, cid, s), cid, resp).1
  }

  /** The rejected stream is dropped after the response; a response of another type
      than the table's makes the serializer panic. */
  function RejectIncoming(w: Setup, st: State, cid: CId, s: Socket, resp: Msg): Outcome<State>
    requires w.Sound()
  {
    if resp.tid != w.parts.ser[RESPONSE_TYPE_MID].tid then Panicked
    else match w.serde.ser(resp)
      case None => Returned(Drop(st, cid, s))
      case Some(b) => Returned(Drop(st, cid, SendOn(w.TcpSize(), s, Frame(RESPONSE_TYPE_MID, b)).1))
  }

  function Settle(w: Setup, st: State, p: Pending, v: Verdict): Outcome<State>
    requires w.Sound()
  {
    match v
    case Accepted(resp) => Returned(AcceptIncoming(w, st, p.cid, p.sock, resp))
    case Rejected(resp) => RejectIncoming(w, st, p.cid, p.sock, resp)
    case Dead => Returned(Drop(st, p.cid, p.sock))
    case Waiting => Returned(st)
  }

  /** Replaying the lists: each index is removed from what the earlier removals left. */
  function Carry(w: Setup, st: State, plan: seq<Job>): Outcome<State>
    requires w.Sound()
    decreases |plan|
  {
    if plan == [] then Returned(st)
    else if plan[0].idx >= |st.newCons| then Panicked
    else
      var p := st.newCons[plan[0].idx];
      var st1 :- Settle(w, st.(newCons := RemoveAt(st.newCons, plan[0].idx)), p, plan[0].verdict);
      Carry(w, st1, plan[1..])
  }

  function AfterPoll(st: State, p: Polled): State {
    st.(newCons := p.cons, history := st.history.(asked := st.history.asked + p.calls))
  }

  /** `handle_new_cons`, and `handle_new_con` with `one`: the new state and how many
      connections the hook was called for. */
  function HandleNew(w: Setup, st: State, hook: Hook, c: TypeId, now: nat, one: bool): Outcome<(State, nat)>
    requires w.Sound()
  {
    var st1 := StartIncoming(w, st, now);
    if st1.newCons == [] then Returned((st1, 0))
    else
      var p :- Poll(w, hook, c, now, one, st1.newCons, []);
      var st2 := AfterPoll(st1, p);
      var st3 :- Carry(w, st2, Plan(p.verdicts));
      Returned((st3, |Pick(p.verdicts, KAccepted)| + |Pick(p.verdicts, KRejected)|))
  }

  /** One turn of a loop over `jobs`, before the loops over `rest`. */
  lemma CarryHead(w: Setup, st: State, jobs: seq<Job>, i: nat, rest: seq<Job>)
    requires w.Sound() && i < |jobs|
    ensures var all := Carry(w, st, jobs[i..] + rest);
            if jobs[i].idx >= |st.newCons| then all.Panicked?
            else
              var st1 := Settle(w, st.(newCons := RemoveAt(st.newCons, jobs[i].idx)), st.newCons[jobs[i].idx], jobs[i].verdict);
              all == if st1.Panicked? then Panicked else Carry(w, st1.value, jobs[i + 1..] + rest)
  {
    var plan := jobs[i..] + rest;
    assert plan[0] == jobs[i] && plan[1..] == jobs[i + 1..] + rest;
  }

  function HandleNewCon(w: Setup, st: State, hook: Hook, c: TypeId, now: nat): Outcome<(State, bool)>
    requires w.Sound()
  {
    var o :- HandleNew(w, st, hook, c, now, true);
    Returned((o.0, o.1 > 0))
  }

  lemma CarryEnd(w: Setup, st: State)
    requires w.Sound()
    ensures Carry(w, st, []) == Returned(st)
  {
  }

  // --------------------------------------------------------------- disconnects

  function Queue(st: State, cid: CId, status: Status): State {
    st.(disconnected := st.disconnected + [(cid, status)],
        history := st.history.(queued := st.history.queued + [(cid, status)]))
  }

  function Disconnect(w: Setup, st: State, cid: CId, m: Msg): Outcome<(State, Io<()>)>
    requires w.Sound()
  {
    if !st.Alive(cid) then Returned((st, Err(InvalidData)))
    else
      var (r, st1) := SendTo(w, st, cid, m);
      if r.Err? then Returned((st1, r))
      else if cid !in st1.tcp then Panicked
      else
        var (closed, s) := ShutdownOs(st1.tcp[cid]);
        var st2 := st1.(tcp := st1.tcp[cid := s]);
        Returned((if closed.Err? then st2 else Queue(st2, cid, Closed), closed))
  }

  function Tell(st: State, cid: CId, status: Status): State
    requires cid in st.tcp && cid in st.cidAddr
  {
    var st1 := st.(history := st.history.(told := st.history.told + [(cid, status)]));
    RmTcpCon(st1, cid)
  }

  /** Every live connection has a stream. */
  ghost predicate Paired(st: State) {
    forall c :: c in st.tcp <==> c in st.cidAddr
  }

  /** `handle_disconnect`: skips the entries of dead ids and handles one live one. */
  ghost function HandleDisconnect(st: State): (r: (bool, State))
    requires Paired(st)
    ensures Paired(r.1)
    ensures r.0 ==> |r.1.disconnected| < |st.disconnected|
    ensures !r.0 ==> r.1 == st.(disconnected := [])
    decreases |st.disconnected|
  {
    if st.disconnected == [] then (false, st)
    else
      var (cid, status) := st.disconnected[0];
      var st1 := st.(disconnected := st.disconnected[1..]);
      if !st1.Alive(cid) then HandleDisconnect(st1) else (true, Tell(st1, cid, status))
  }

  /** `handle_disconnects`: the whole queue in one loop. */
  ghost function HandleDisconnects(st: State): (r: (nat, State))
    requires Paired(st)
    ensures Paired(r.1)
    decreases |st.disconnected|
  {
    if st.disconnected == [] then (0, st)
    else
      var (cid, status) := st.disconnected[0];
      var st1 := st.(disconnected := st.disconnected[1..]);
      if !st1.Alive(cid) then HandleDisconnects(st1)
      else
        var (n, st2) := HandleDisconnects(Tell(st1, cid, status));
        (n + 1, st2)
  }

  // ----------------------------------------------------------------- receiving

  /** The state while one connection is read: its stream is at `s` and gave `got`. */
  ghost function Reading(st: State, cid: CId, s: Socket, got: seq<Letter>): State
    requires Below(got, |st.msgBuff|)
  {
    st.(tcp := st.tcp[cid := s], msgBuff := PushAll(st.msgBuff, got))
  }

  /** The state after one connection was read dry. */
  ghost function Absorb(st: State, cid: CId, d: Drained): State
    requires Below(d.got, |st.msgBuff|)
  {
    var st1 := Reading(st, cid, d.sock, d.got);
    match d.end
    case None => st1
    case Some(status) => Queue(st1, cid, status)
  }

  lemma {:induction false} ReadingNothing(st: State, cid: CId)
    requires cid in st.tcp
    ensures Reading(st, cid, st.tcp[cid], []) == st
  {
    assert st.tcp[cid := st.tcp[cid]] == st.tcp;
  }

  lemma {:induction false} ReadingMoves(st: State, cid: CId, s: Socket, t: Socket, got: seq<Letter>)
    requires Below(got, |st.msgBuff|)
    ensures var r := Reading(st, cid, s, got);
            cid in r.tcp && r.tcp[cid] == s && |r.msgBuff| == |st.msgBuff|
            && r.(tcp := r.tcp[cid := t]) == Reading(st, cid, t, got)
  {
    assert st.tcp[cid := s][cid := t] == st.tcp[cid := t];
  }

  lemma {:induction false} RecvConIs(w: Setup, st: State, cid: CId)
    requires w.Sound() && |st.msgBuff| == w.parts.MidCount() && cid in st.tcp
    ensures RecvCon(w, st, cid) == Finish(st, cid, After([], Drain(w, cid, st.tcp[cid])))
    ensures Drain(w, cid, st.tcp[cid]).Panicked? <==> RecvCon(w, st, cid).Panicked?
    ensures Below([], |st.msgBuff|)
  {
    AfterNothing(Drain(w, cid, st.tcp[cid]));
  }

  lemma {:induction false} FinishIs(st: State, cid: CId, s: Socket, got: seq<Letter>, end: Option<Status>)
    requires Below(got, |st.msgBuff|)
    ensures Finish(st, cid, Returned(Drained(s, got, end))) ==
            match end
            case None => Returned((Reading(st, cid, s, got), |got|))
            case Some(status) =>
              Returned((Queue(Reading(st, cid, s, got), cid, status), |got| + if status.Disconnected? then 1 else 0))
  {
  }

  lemma {:induction false} ReadingGets(st: State, cid: CId, s: Socket, got: seq<Letter>, l: Letter)
    requires Below(got, |st.msgBuff|)
    requires l.mid < |st.msgBuff|
    ensures var r := Reading(st, cid, s, got);
            Below(got + [l], |st.msgBuff|) && r.(msgBuff := Push(r.msgBuff, l)) == Reading(st, cid, s, got + [l])
  {
    PushAllLast(st.msgBuff, got, l);
  }

  /** The state while the datagrams are read. */
  ghost function ReadingUdp(st: State, u: UdpSocket, got: seq<Letter>): State
    requires Below(got, |st.msgBuff|)
  {
    st.(udp := u, msgBuff := PushAll(st.msgBuff, got))
  }

  lemma {:induction false} ReadingUdpSteps(st: State, u: UdpSocket, v: UdpSocket, got: seq<Letter>)
    requires Below(got, |st.msgBuff|)
    ensures var r := ReadingUdp(st, u, got);
            && r.udp == u && |r.msgBuff| == |st.msgBuff| && r.cidAddr == st.cidAddr && r.addrCid == st.addrCid
            && r.(udp := v) == ReadingUdp(st, v, got)
  {
  }

  lemma {:induction false} ReadingUdpGets(st: State, u: UdpSocket, got: seq<Letter>, l: Letter)
    requires Below(got, |st.msgBuff|) && l.mid < |st.msgBuff|
    ensures var r := ReadingUdp(st, u, got);
            Below(got + [l], |st.msgBuff|) && r.(msgBuff := Push(r.msgBuff, l)) == ReadingUdp(st, u, got + [l])
  {
    PushAllLast(st.msgBuff, got, l);
  }

  /** Reading one connection dry. */
  ghost function RecvCon(w: Setup, st: State, cid: CId): Outcome<(State, nat)>
    requires w.Sound() && |st.msgBuff| == w.parts.MidCount() && cid in st.tcp
  {
    Finish(st, cid, Drain(w, cid, st.tcp[cid]))
  }

  ghost function Finish(st: State, cid: CId, o: Outcome<Drained>): Outcome<(State, nat)>
    requires o.Returned? ==> Below(o.value.got, |st.msgBuff|)
  {
    var d :- o;
    Returned((Absorb(st, cid, d), d.Count()))
  }

  /** The TCP part of `recv_msgs`, visiting the connections in the order `cids`. */
  ghost function RecvTcps(w: Setup, st: State, cids: seq<CId>): Outcome<(State, nat)>
    requires w.Sound() && |st.msgBuff| == w.parts.MidCount()
    requires forall c :: c in cids ==> c in st.tcp
    decreases |cids|
  {
    if cids == [] then Returned((st, 0))
    else
      var a :- RecvCon(w, st, cids[0]);
      var rest :- RecvTcps(w, a.0, cids[1..]);
      Returned((rest.0, a.1 + rest.1))
  }

  ghost predicate FromUdp(got: seq<Letter>, alive: set<CId>) {
    forall l :: l in got ==> l.msg.time.Some? && l.msg.cid in alive
  }

  datatype UdpDrained = UdpDrained(sock: UdpSocket, got: seq<Letter>)

  /** The UDP part: each datagram becomes a letter from the live connection with its
      source address. Any error ends the loop, a stranger's datagram included. */
  function DrainUdp(w: Setup, cidAddr: map<CId, Addr>, addrCid: map<Addr, CId>, u: UdpSocket): (r: Outcome<UdpDrained>)
    ensures r.Returned? ==> Below(r.value.got, |w.parts.deser|) && FromUdp(r.value.got, cidAddr.Keys)
    decreases |u.inbox|
  {
    var (o, u1) := RecvUdpOn(w, cidAddr, addrCid, u);
    var got :- o;
    if got.Err? then Returned(UdpDrained(u1, []))
    else
      var rest :- DrainUdp(w, cidAddr, addrCid, u1);
      Returned(rest.(got := [got.value] + rest.got))
  }

  function AfterUdp(got: seq<Letter>, r: Outcome<UdpDrained>): Outcome<UdpDrained> {
    match r
    case Panicked => Panicked
    case Returned(d) => Returned(d.(got := got + d.got))
  }

  /** `recv_udp`: one datagram as a letter from the live connection it came from. */
  function RecvUdpOn(w: Setup, cidAddr: map<CId, Addr>, addrCid: map<Addr, CId>, u: UdpSocket): (r: (Outcome<Io<Letter>>, UdpSocket))
    ensures r.0.Returned? && r.0.value.Ok? ==>
              && r.0.value.value.mid < |w.parts.deser| && r.0.value.value.msg.time.Some? && r.0.value.value.msg.cid in cidAddr
              && |r.1.inbox| < |u.inbox|
  {
    var (o, u1) := RecvFromOn(w.UdpSize(), u);
    match o
    case Panicked => (Panicked, u1)
    case Returned(Err(kind)) => (Returned(Err(kind)), u1)
    case Returned(Ok(got)) =>
      match w.Decode(got.mid, got.payload)
      case Panicked => (Panicked, u1)
      case Returned(Err(kind)) => (Returned(Err(kind)), u1)
      case Returned(Ok(m)) =>
        if got.from in addrCid && addrCid[got.from] in cidAddr then
          (Returned(Ok(Letter(got.mid, ErasedNetMsg(addrCid[got.from], Some(got.time), m)))), u1)
        else (Returned(Err(Other)), u1)
  }

  lemma DrainUdpStep(w: Setup, cidAddr: map<CId, Addr>, addrCid: map<Addr, CId>, u: UdpSocket, got: seq<Letter>)
    ensures var (o, u1) := RecvUdpOn(w, cidAddr, addrCid, u);
            AfterUdp(got, DrainUdp(w, cidAddr, addrCid, u)) ==
            match o
            case Panicked => Panicked
            case Returned(Err(_)) => Returned(UdpDrained(u1, got))
            case Returned(Ok(l)) => AfterUdp(got + [l], DrainUdp(w, cidAddr, addrCid, u1))
    ensures AfterUdp([], DrainUdp(w, cidAddr, addrCid, u)) == DrainUdp(w, cidAddr, addrCid, u)
  {
    Units(got);
    var (o, u1) := RecvUdpOn(w, cidAddr, addrCid, u);
    if DrainUdp(w, cidAddr, addrCid, u).Returned? {
      Units(DrainUdp(w, cidAddr, addrCid, u).value.got);
    }
    if o.Returned? && o.value.Ok? && DrainUdp(w, cidAddr, addrCid, u1).Returned? {
      Assoc(got, [o.value.value], DrainUdp(w, cidAddr, addrCid, u1).value.got);
    }
  }

  ghost function RecvUdps(w: Setup, st: State): Outcome<(State, nat)>
    requires w.Sound() && |st.msgBuff| == w.parts.MidCount()
  {
    var d :- DrainUdp(w, st.cidAddr, st.addrCid, st.udp);
    Returned((ReadingUdp(st, d.sock, d.got), |d.got|))
  }

  lemma {:induction false} RecvUdpsIs(w: Setup, st: State)
    requires w.Sound() && |st.msgBuff| == w.parts.MidCount()
    ensures var d := DrainUdp(w, st.cidAddr, st.addrCid, st.udp);
            && AfterUdp([], d) == d && Below([], |st.msgBuff|) && ReadingUdp(st, st.udp, []) == st
            && (d.Panicked? ==> RecvUdps(w, st) == Panicked)
            && (d.Returned? ==> Below(d.value.got, |st.msgBuff|)
                                && RecvUdps(w, st) == Returned((ReadingUdp(st, d.value.sock, d.value.got), |d.value.got|)))
  {
    DrainUdpStep(w, st.cidAddr, st.addrCid, st.udp, []);
  }

  ghost function RecvMsgs(w: Setup, st: State, cids: seq<CId>): Outcome<(State, nat)>
    requires w.Sound() && |st.msgBuff| == w.parts.MidCount()
    requires forall c :: c in cids ==> c in st.tcp
  {
    RecvTcpsKeeps(w, st, cids);
    var a :- RecvTcps(w, st, cids);
    var b :- RecvUdps(w, a.0);
    Returned((b.0, a.1 + b.1))
  }

  lemma {:induction false} RecvConKeeps(w: Setup, st: State, cid: CId)
    requires w.Sound() && |st.msgBuff| == w.parts.MidCount() && cid in st.tcp
    ensures RecvCon(w, st, cid).Returned? ==> OnlyReceived(st, RecvCon(w, st, cid).value.0)
  {
    RecvConIs(w, st, cid);
    AfterNothing(Drain(w, cid, st.tcp[cid]));
    hide Drain, MsgTableParts.Shaped, PushAll, RecvCon;
    if RecvCon(w, st, cid).Returned? {
      AbsorbKeeps(st, cid, Drain(w, cid, st.tcp[cid]).value);
    }
  }

  lemma {:induction false} AbsorbKeeps(st: State, cid: CId, d: Drained)
    requires cid in st.tcp && Below(d.got, |st.msgBuff|)
    ensures OnlyReceived(st, Absorb(st, cid, d))
  {
    hide PushAll, Below;
  }

  ghost predicate OnlyReceived(st: State, st1: State) {
    && (forall c :: c in st1.tcp <==> c in st.tcp) && |st1.msgBuff| == |st.msgBuff|
    && st1 == st.(tcp := st1.tcp, msgBuff := st1.msgBuff, disconnected := st1.disconnected,
                  history := st.history.(queued := st1.history.queued))
  }

  /** Receiving over TCP touches streams, buffers and the disconnect queue only. */
  lemma {:induction false} RecvTcpsKeeps(w: Setup, st: State, cids: seq<CId>)
    requires w.Sound() && |st.msgBuff| == w.parts.MidCount()
    requires forall c :: c in cids ==> c in st.tcp
    ensures RecvTcps(w, st, cids).Returned? ==>
              OnlyReceived(st, RecvTcps(w, st, cids).value.0)
    decreases |cids|
  {
    if cids != [] {
      var a := RecvCon(w, st, cids[0]);
      RecvConKeeps(w, st, cids[0]);
      hide RecvCon;
      if a.Returned? {
        RecvTcpsKeeps(w, a.value.0, cids[1..]);
      }
    }
  }

  function Plus(i: nat, r: Outcome<(State, nat)>): Outcome<(State, nat)> {
    match r
    case Panicked => Panicked
    case Returned(p) => Returned((p.0, i + p.1))
  }

  lemma PlusNothing(r: Outcome<(State, nat)>)
    ensures Plus(0, r) == r
  {
  }

  lemma {:induction false} RecvTcpsStep(w: Setup, st: State, cids: seq<CId>, k: nat, i: nat)
    requires w.Sound() && |st.msgBuff| == w.parts.MidCount() && k < |cids|
    requires forall c :: c in cids ==> c in st.tcp
    ensures var a := RecvCon(w, st, cids[k]);
            Plus(i, RecvTcps(w, st, cids[k..])) ==
            if a.Panicked? then Panicked else Plus(i + a.value.1, RecvTcps(w, a.value.0, cids[k + 1..]))
  {
    hide Drain, Absorb, MsgTableParts.Shaped;
    assert cids[k..][0] == cids[k] && cids[k..][1..] == cids[k + 1..];
  }

  lemma {:induction false} RecvTcpsEnd(w: Setup, st: State, cids: seq<CId>, i: nat)
    requires w.Sound() && |st.msgBuff| == w.parts.MidCount()
    ensures Plus(i, RecvTcps(w, st, cids[|cids|..])) == Returned((st, i))
  {
    assert cids[|cids|..] == [];
  }

  /** The messages of one buffer that came from ids `spec` matches. */
  function FromSpec(b: seq<ErasedNetMsg>, spec: CIdSpec): seq<ErasedNetMsg> {
    if b == [] then [] else (if spec.Matches(b[0].cid) then [b[0]] else []) + FromSpec(b[1..], spec)
  }

  ghost predicate AllOf(b: seq<ErasedNetMsg>, tid: TypeId) {
    forall m :: m in b ==> m.msg.tid == tid
  }

  /** `recv_spec::<T>`, and `recv::<T>` with `All`: panics for a type without a buffer,
      and for a buffered message that turns out to be of another type. */
  ghost function RecvSpec(w: Setup, st: State, tid: TypeId, spec: CIdSpec): Outcome<seq<ErasedNetMsg>>
    requires w.Sound() && |st.msgBuff| == w.parts.MidCount()
  {
    if !w.parts.ValidTid(tid) then Panicked
    else
      var got := FromSpec(st.msgBuff[w.parts.tidMap[tid]], spec);
      if AllOf(got, tid) then Returned(got) else Panicked
  }

  lemma FromSpecStep(b: seq<ErasedNetMsg>, spec: CIdSpec, got: seq<ErasedNetMsg>, i: nat)
    requires i < |b| && got + FromSpec(b[i..], spec) == FromSpec(b, spec)
    ensures (if spec.Matches(b[i].cid) then got + [b[i]] else got) + FromSpec(b[i + 1..], spec) == FromSpec(b, spec)
  {
    assert b[i..][0] == b[i] && b[i..][1..] == b[i + 1..];
    Assoc(got, [b[i]], FromSpec(b[i + 1..], spec));
    Units(FromSpec(b[i + 1..], spec));
  }

  lemma FromSpecEnd(spec: CIdSpec)
    ensures FromSpec([], spec) == []
  {
  }

  function ClearMsgs(st: State): State {
    st.(msgBuff := seq(|st.msgBuff|, _ => []))
  }

  function Start(w: Setup, listener: seq<Option<Arrival>>, udp: UdpSocket): State {
    State(0, seq(|w.parts.tidMap|, _ => []), [], [], listener, map[], udp, map[], map[],
          History(0, [], [], [], map[]))
  }
}
