/** When the maps from ids to addresses and back stay inverse to each other. */
module Mirror {
  import opened Prelude
  import opened Net
  import opened MessageTable
  import opened Tcp
  import opened Udp
  import opened Inbound
  import opened ServerModel
  import opened Lifecycle
  import opened Runs
  import Conservation
  import Panics
  import Receiving

  ghost predicate Mirrors(st: State) {
    Conservation.Mirrored(st.cidAddr, st.addrCid)
  }

  /** Registering a new id keeps the maps inverse exactly when nobody with the same
      address is registered; nothing in `add_tcp_con_cid` checks that. */
  lemma {:induction false} AddMirrors(st: State, cid: CId, s: Socket)
    requires Mirrors(st) && cid !in st.cidAddr
    ensures Mirrors(AddTcpCon(st, cid, s)) <==> s.peer !in st.addrCid
  {
    var st1 := AddTcpCon(st, cid, s);
    if s.peer in st.addrCid {
      var other := st.addrCid[s.peer];
      assert other in st1.cidAddr && st1.cidAddr[other] == s.peer && st1.addrCid[s.peer] == cid != other;
    }
  }

  // -------------------------------------------------------------- over whole runs

  /** The streams the listener will hand out come from addresses in use nowhere else. */
  ghost predicate FreshPeers(st: State) {
    && (forall i :: 0 <= i < |st.listener| && st.listener[i].Some? ==> st.listener[i].value.peer !in st.addrCid)
    && (forall i, j :: 0 <= i < j < |st.listener| && st.listener[i].Some? && st.listener[j].Some? ==>
          st.listener[i].value.peer != st.listener[j].value.peer)
    && (forall i, j :: 0 <= i < |st.newCons| && 0 <= j < |st.listener| && st.listener[j].Some? ==>
          st.newCons[i].sock.peer != st.listener[j].value.peer)
  }

  /** No two open streams have the same peer, and the maps say who is who. */
  ghost predicate Apart(st: State) {
    && Mirrors(st) && FreshPeers(st)
    && (forall c :: c in st.cidAddr ==> c in st.tcp && st.tcp[c].peer == st.cidAddr[c])
    && (forall i :: 0 <= i < |st.newCons| ==> st.newCons[i].sock.peer !in st.addrCid)
    && (forall i, j :: 0 <= i < j < |st.newCons| ==> st.newCons[i].sock.peer != st.newCons[j].sock.peer)
  }

  /** The world only hands out such streams. */
  ghost predicate HandsOutFresh(op: Op) {
    op.World? ==> FreshPeers(op.after)
  }

  /** Moves that leave peers and maps alone. */
  ghost predicate SamePeers(st: State, st1: State) {
    && st1.cidAddr == st.cidAddr && st1.addrCid == st.addrCid
    && |st1.newCons| == |st.newCons|
    && (forall i :: 0 <= i < |st.newCons| ==> st1.newCons[i].sock.peer == st.newCons[i].sock.peer)
    && (forall c :: c in st1.tcp <==> c in st.tcp)
    && (forall c :: c in st.tcp ==> st1.tcp[c].peer == st.tcp[c].peer)
  }

  lemma {:induction false} SameApart(st: State, st1: State)
    requires Apart(st) && SamePeers(st, st1)
    requires st1.listener == st.listener || (st.listener != [] && st1.listener == st.listener[1..]) || FreshPeers(st1)
    ensures Apart(st1)
  {
  }

  lemma {:induction false} EnrollApart(st: State, now: nat)
    requires Apart(st) && st.listener != [] && st.listener[0].Some?
    ensures Apart(Issue(st.(listener := st.listener[1..]), st.listener[0].value, now))
  {
  }

  lemma SendPeers(w: Setup, st: State, cid: CId, m: Msg)
    requires w.Sound()
    ensures SamePeers(st, SendTo(w, st, cid, m).1) && SendTo(w, st, cid, m).1.listener == st.listener
  {
  }

  lemma {:induction false} AddApart(st: State, i: nat)
    requires Apart(st) && i < |st.newCons| && st.newCons[i].cid !in st.cidAddr
    ensures Apart(st.(newCons := RemoveAt(st.newCons, i)))
    ensures Apart(AddTcpCon(st.(newCons := RemoveAt(st.newCons, i)), st.newCons[i].cid, st.newCons[i].sock))
  {
    var st0 := st.(newCons := RemoveAt(st.newCons, i));
    var p := st.newCons[i];
    AddMirrors(st0, p.cid, p.sock);
    hide Conservation.Mirrored;
    forall k | 0 <= k < |st0.newCons|
      ensures st0.newCons[k].sock.peer !in st.addrCid && st0.newCons[k].sock.peer != p.sock.peer
    {
    }
  }

  lemma {:induction false} PassApart(w: Setup, st: State, i: nat, v: Verdict)
    requires w.Sound() && Inv(w, st) && st.history.issued < CID_COUNT && Apart(st) && i < |st.newCons|
    ensures var o := Settle(w, st.(newCons := RemoveAt(st.newCons, i)), st.newCons[i], v);
            o.Returned? ==> Apart(o.value)
  {
    var p := st.newCons[i];
    var st0 := st.(newCons := RemoveAt(st.newCons, i));
    PendingUnknown(w, st, i);
    hide Inv, Apart, RemoveAt, SendTo;
    AddApart(st, i);
    SettlePeers(w, st0, p, v);
    hide Settle, AddTcpCon;
    var o := Settle(w, st0, p, v);
    if o.Returned? {
      SameApart(if v.Accepted? then AddTcpCon(st0, p.cid, p.sock) else st0, o.value);
    }
  }

  lemma SettlePeers(w: Setup, st: State, p: Pending, v: Verdict)
    requires w.Sound()
    ensures var o := Settle(w, st, p, v);
            o.Returned? ==>
              var st0 := if v.Accepted? then AddTcpCon(st, p.cid, p.sock) else st;
              SamePeers(st0, o.value) && o.value.listener == st0.listener
  {
    if v.Accepted? {
      SendPeers(w, AddTcpCon(st, p.cid, p.sock), p.cid, v.resp);
      hide SendTo;
    }
  }

  lemma {:induction false} TellApart(st: State)
    requires Apart(st) && Paired(st) && st.disconnected != [] && st.Alive(st.disconnected[0].0)
    ensures Apart(TellFirst(st))
  {
  }

  lemma {:induction false} TakePeers(w: Setup, st: State, cid: CId)
    requires w.Sound() && |st.msgBuff| == w.parts.MidCount() && cid in st.tcp
    ensures RecvCon(w, st, cid).Returned? ==> SamePeers(st, RecvCon(w, st, cid).value.0) && RecvCon(w, st, cid).value.0.listener == st.listener
  {
    Receiving.StreamsAfter(w, st, cid);
    RecvConKeeps(w, st, cid);
    hide RecvCon, Drain, Setup.Sound;
  }

  lemma {:induction false} MoveApart(w: Setup, st: State, op: Op, mv: Move)
    requires w.Sound() && Inv(w, st) && Apart(st) && HandsOutFresh(op) && PartOf(op, mv)
    requires Do(w, st, mv).Returned? && Do(w, st, mv).value.history.issued < CID_COUNT
    ensures Apart(Do(w, st, mv).value)
  {
    IssuedBefore(w, st, mv);
    hide Inv, Apart, SamePeers, FreshPeers, Poll, Settle, SendTo, RecvCon, Issue, TellFirst, RecvUdps, WorldMoves, Setup.Sound;
    if mv.Enroll? {
      EnrollApart(st, mv.now);
    } else if mv.Pass? {
      PassApart(w, st, mv.idx, mv.verdict);
    } else if mv.TellOne? {
      TellApart(st);
    } else {
      MovePeers(w, st, mv);
      SameApart(st, Do(w, st, mv).value);
    }
  }

  lemma MovePeers(w: Setup, st: State, mv: Move)
    requires w.Sound() && Do(w, st, mv).Returned? && !mv.Enroll? && !mv.Pass? && !mv.TellOne?
    ensures var st1 := Do(w, st, mv).value;
            SamePeers(st, st1) && (mv.Wait? || st1.listener == st.listener || (st.listener != [] && st1.listener == st.listener[1..]))
  {
    hide Poll, SendTo, RecvCon, RecvUdps, Setup.Sound, WorldMoves, SamePeers;
    if mv.Ask? {
      AskPeers(w, st, mv.hook, mv.c, mv.now, mv.one);
    } else if mv.Post? {
      SendPeers(w, st, mv.cid, mv.m);
    } else if mv.Take? {
      TakePeers(w, st, mv.cid);
    } else if mv.TakeUdp? {
      UdpPeers(w, st);
    } else if mv.Wait? {
      WorldPeers(st, mv.after);
    } else {
      QuietPeers(st, Do(w, st, mv).value);
    }
  }

  lemma {:induction false} AskPeers(w: Setup, st: State, hook: Hook, c: TypeId, now: nat, one: bool)
    requires w.Sound() && Poll(w, hook, c, now, one, st.newCons, []).Returned?
    ensures SamePeers(st, AfterPoll(st, Poll(w, hook, c, now, one, st.newCons, []).value))
  {
    hide Poll, Setup.Sound;
    PollReads(w, hook, c, now, one, st.newCons, []);
  }

  lemma {:induction false} QuietPeers(st: State, st1: State)
    requires st1.newCons == st.newCons && st1.cidAddr == st.cidAddr && st1.addrCid == st.addrCid
    requires forall c :: c in st1.tcp <==> c in st.tcp
    requires forall c :: c in st.tcp ==> st1.tcp[c].peer == st.tcp[c].peer
    ensures SamePeers(st, st1)
  {
  }

  lemma {:induction false} UdpPeers(w: Setup, st: State)
    requires w.Sound() && |st.msgBuff| == w.parts.MidCount() && RecvUdps(w, st).Returned?
    ensures SamePeers(st, RecvUdps(w, st).value.0) && RecvUdps(w, st).value.0.listener == st.listener
  {
  }

  lemma WorldPeers(st: State, after: State)
    requires WorldMoves(st, after)
    ensures SamePeers(st, after)
  {
  }

  /** If every stream the listener hands out comes from an address that is not in use,
      then over any run `cid_addr` and `addr_cid` stay inverse to each other, cover
      the same ids as `tcp`, and name the true peer of every stream. */
  lemma {:induction false} MirrorOverRuns(w: Setup, listener: seq<Option<Arrival>>, udp: UdpSocket, ops: seq<Op>, st: State)
    requires w.Complete() && Run(w, Start(w, listener, udp), ops, st) && st.history.issued < CID_COUNT
    requires FreshPeers(Start(w, listener, udp)) && forall op :: op in ops ==> HandsOutFresh(op)
    ensures Mirrors(st) && Paired(st)
    ensures forall c :: c in st.tcp ==> c in st.cidAddr && st.cidAddr[c] == st.tcp[c].peer
  {
    var start := Start(w, listener, udp);
    StartInv(w, listener, udp);
    assert Apart(start);
    var p, ok := (s: State) => Apart(s), (op: Op) => HandsOutFresh(op);
    assert Kept(w, p, ok) by {
      forall s: State, op: Op, mv: Move | Inv(w, s) && p(s) && ok(op) && PartOf(op, mv) && Do(w, s, mv).Returned?
                                           && Do(w, s, mv).value.history.issued < CID_COUNT
        ensures p(Do(w, s, mv).value)
      {
        MoveApart(w, s, op, mv);
      }
    }
    RunKeeps(w, start, ops, st);
    RunKeepsMore(w, start, ops, st, p, ok);
  }

  // ------------------------------------------------------------------ attribution

  /** Packet `p` becomes letter `l`: a readable datagram whose source is the peer of
      exactly one live stream, with that stream's id, its own message and send time. */
  ghost predicate Becomes(w: Setup, st: State, p: Packet, l: Letter) {
    && p.Datagram? && l.msg.cid in st.tcp && st.tcp[l.msg.cid].peer == p.from
    && (forall c :: c in st.tcp && st.tcp[c].peer == p.from ==> c == l.msg.cid)
    && var r := Read(w.UdpSize(), p);
       && r.Returned? && r.value.Ok? && l.mid == r.value.value.mid && l.msg.time == Some(r.value.value.time)
       && w.Decode(l.mid, r.value.value.payload) == Returned(Ok(l.msg.msg))
  }

  /** The address of a packet is the peer of some live stream. */
  ghost predicate FromLive(st: State, p: Packet) {
    p.Datagram? && exists c :: c in st.tcp && st.tcp[c].peer == p.from
  }

  ghost predicate TruePeers(st: State) {
    Mirrors(st) && Paired(st) && forall c :: c in st.tcp ==> st.cidAddr[c] == st.tcp[c].peer
  }

  lemma UsedBecomes(w: Setup, st: State, p: Packet)
    requires w.Sound() && TruePeers(st)
    ensures var o := Conservation.Judge(w, st.cidAddr, st.addrCid, p);
            && (Conservation.Good(o) ==> Becomes(w, st, p, o.value.value) && FromLive(st, p))
            && (!Conservation.Good(o) ==> forall l :: !Becomes(w, st, p, l))
  {
    Conservation.Attributed(w, st.cidAddr, st.addrCid, p);
    hide Conservation.Judge, Read, MsgTableParts.Shaped;
    var o := Conservation.Judge(w, st.cidAddr, st.addrCid, p);
    if Conservation.Good(o) {
      var l := o.value.value;
      forall c | c in st.tcp && st.tcp[c].peer == p.from
        ensures c == l.msg.cid
      {
        assert st.addrCid[st.cidAddr[c]] == c;
      }
    } else {
      forall l
        ensures !Becomes(w, st, p, l)
      {
        if Becomes(w, st, p, l) {
          ReadFrom(w, p);
          assert false;
        }
      }
    }
  }

  lemma ReadFrom(w: Setup, p: Packet)
    requires p.Datagram?
    ensures var r := Read(w.UdpSize(), p); r.Returned? && r.value.Ok? ==> r.value.value.from == p.from
  {
  }

  /** UDP attribution in every reachable state, for the datagrams of the next `recv_msgs`:
      what it buffers over UDP is exactly what the first `|got|` packets become, each
      attributed to the one live stream whose peer is the datagram's source; the packet
      behind them becomes nothing; and no packet from an address that is not the peer
      of a live stream, retired or never registered, is among them. */
  lemma {:induction false} AttributedOverRuns(w: Setup, listener: seq<Option<Arrival>>, udp: UdpSocket, ops: seq<Op>, st: State, order: seq<CId>)
    returns (got: seq<Letter>)
    requires w.Complete() && Run(w, Start(w, listener, udp), ops, st) && st.history.issued < CID_COUNT
    requires FreshPeers(Start(w, listener, udp)) && forall op :: op in ops ==> HandsOutFresh(op)
    requires |st.msgBuff| == w.parts.MidCount() && Receiving.Visits(order, st) && RecvMsgs(w, st, order).Returned?
    ensures |got| <= |st.udp.inbox| && Below(got, |st.msgBuff|)
    ensures forall k :: 0 <= k < |got| ==> Becomes(w, st, st.udp.inbox[k], got[k])
    ensures |got| < |st.udp.inbox| ==> forall l :: !Becomes(w, st, st.udp.inbox[|got|], l)
    ensures forall k :: 0 <= k < |st.udp.inbox| && !FromLive(st, st.udp.inbox[k]) ==> |got| <= k
    ensures RecvTcps(w, st, order).Returned?
    ensures var a, b := RecvTcps(w, st, order).value.0, RecvMsgs(w, st, order).value.0;
            |a.msgBuff| == |b.msgBuff| == |st.msgBuff|
            && forall mid :: 0 <= mid < |st.msgBuff| ==> b.msgBuff[mid] == a.msgBuff[mid] + OfMid(got, mid)
  {
    MirrorOverRuns(w, listener, udp, ops, st);
    assert TruePeers(st);
    hide Run, FreshPeers, Mirrors, Paired, Setup.Sound, Becomes, FromLive, RecvTcps, DrainUdp, NoDup;
    RecvTcpsKeeps(w, st, order);
    var a := RecvTcps(w, st, order).value.0;
    got := UdpBuffers(w, a);
    forall k | 0 <= k < |st.udp.inbox|
      ensures k < |got| ==> Becomes(w, st, st.udp.inbox[k], got[k]) && FromLive(st, st.udp.inbox[k])
      ensures k == |got| ==> forall l :: !Becomes(w, st, st.udp.inbox[k], l)
    {
      UsedBecomes(w, st, st.udp.inbox[k]);
    }
  }

  /** What `recv_msgs` makes of the datagrams, packet by packet. */
  lemma {:induction false} UdpBuffers(w: Setup, st: State) returns (got: seq<Letter>)
    requires w.Sound() && |st.msgBuff| == w.parts.MidCount() && RecvUdps(w, st).Returned?
    ensures |got| <= |st.udp.inbox| && Below(got, |st.msgBuff|)
    ensures forall k :: 0 <= k < |got| ==> Conservation.Judge(w, st.cidAddr, st.addrCid, st.udp.inbox[k]) == Returned(Ok(got[k]))
    ensures |got| < |st.udp.inbox| ==> !Conservation.Good(Conservation.Judge(w, st.cidAddr, st.addrCid, st.udp.inbox[|got|]))
    ensures |RecvUdps(w, st).value.0.msgBuff| == |st.msgBuff|
    ensures forall mid :: 0 <= mid < |st.msgBuff| ==> RecvUdps(w, st).value.0.msgBuff[mid] == st.msgBuff[mid] + OfMid(got, mid)
  {
    var n := Panics.UsableFront(w, st.cidAddr, st.addrCid, st.udp.inbox);
    Conservation.UdpTakes(w, st.cidAddr, st.addrCid, st.udp, n);
    got := DrainUdp(w, st.cidAddr, st.addrCid, st.udp).value.got;
    assert Below(got, |st.msgBuff|);
    hide DrainUdp, Conservation.Judge, PushAll, OfMid, Below, MsgTableParts.Shaped;
    forall mid | 0 <= mid < |st.msgBuff|
      ensures RecvUdps(w, st).value.0.msgBuff[mid] == st.msgBuff[mid] + OfMid(got, mid)
    {
      PushAllAppends(st.msgBuff, got, mid);
    }
  }
}
