/** Nothing is lost, invented or attributed to the wrong connection by `recv_msgs`. */
module Conservation {
  import opened Prelude
  import opened Net
  import opened MessageTable
  import opened Tcp
  import opened Udp
  import opened Inbound
  import opened ServerModel
  import opened Lifecycle
  import opened Runs
  import Receiving

  /** How many entries are graceful disconnects. */
  function Graceful(q: seq<(CId, Status)>): nat {
    if q == [] then 0 else (if q[0].1.Disconnected? then 1 else 0) + Graceful(q[1..])
  }

  lemma {:induction false} GracefulConcat(a: seq<(CId, Status)>, b: seq<(CId, Status)>)
    ensures Graceful(a + b) == Graceful(a) + Graceful(b)
    decreases |a|
  {
    if a == [] {
      Units(b);
    } else {
      assert (a + b)[0] == a[0] && (a + b)[1..] == a[1..] + b;
      GracefulConcat(a[1..], b);
    }
  }

  /** What was there before is still in front, in the buffers and in the queue, and
      `n` is what came behind it. */
  ghost predicate Conserved(st: State, st1: State, n: nat) {
    && |st1.msgBuff| == |st.msgBuff|
    && (forall mid :: 0 <= mid < |st.msgBuff| ==> st.msgBuff[mid] <= st1.msgBuff[mid])
    && st.disconnected <= st1.disconnected
    && n == Total(st1.msgBuff) - Total(st.msgBuff) + Graceful(st1.disconnected[|st.disconnected|..])
  }

  lemma ConservedTrans(a: State, b: State, c: State, m: nat, n: nat)
    requires Conserved(a, b, m) && Conserved(b, c, n)
    ensures Conserved(a, c, m + n)
  {
    var x, y := b.disconnected[|a.disconnected|..], c.disconnected[|b.disconnected|..];
    GracefulConcat(x, y);
    assert c.disconnected[|a.disconnected|..] == x + y;
  }

  lemma Pushed(b: Buffers, got: seq<Letter>)
    requires Below(got, |b|)
    ensures forall mid :: 0 <= mid < |b| ==> b[mid] <= PushAll(b, got)[mid]
    ensures Total(PushAll(b, got)) == Total(b) + |got|
  {
    TotalPushAll(b, got);
    forall mid | 0 <= mid < |b|
      ensures b[mid] <= PushAll(b, got)[mid]
    {
      PushAllAppends(b, got, mid);
    }
  }

  lemma {:induction false} AbsorbConserves(st: State, cid: CId, d: Drained)
    requires Below(d.got, |st.msgBuff|)
    ensures Conserved(st, Absorb(st, cid, d), d.Count())
  {
    Pushed(st.msgBuff, d.got);
    var q := st.disconnected;
    if d.end.Some? {
      var e := (cid, d.end.value);
      assert (q + [e])[|q|..] == [e];
      assert Graceful([e]) == (if e.1.Disconnected? then 1 else 0) + Graceful([]);
    } else {
      assert q[|q|..] == [];
    }
  }

  lemma {:induction false} TcpsConserve(w: Setup, st: State, cids: seq<CId>)
    requires w.Sound() && |st.msgBuff| == w.parts.MidCount()
    requires forall c :: c in cids ==> c in st.tcp
    ensures RecvTcps(w, st, cids).Returned? ==> Conserved(st, RecvTcps(w, st, cids).value.0, RecvTcps(w, st, cids).value.1)
    decreases |cids|
  {
    hide Receiving.DrainOf, Absorb, Setup.Sound, MsgTableParts.Shaped, RecvCon, Conserved;
    if cids == [] {
      StillConserved(st);
    } else {
      var cid, tail := cids[0], cids[1..];
      Receiving.RecvConPanics(w, st, cid);
      if RecvCon(w, st, cid).Returned? {
        Receiving.RecvConAbsorbs(w, st, cid);
        var d := Receiving.DrainOf(w, st, cid).value;
        var st1 := Absorb(st, cid, d);
        AbsorbConserves(st, cid, d);
        TcpsConserve(w, st1, tail);
        if RecvTcps(w, st1, tail).Returned? {
          ConservedTrans(st, st1, RecvTcps(w, st1, tail).value.0, d.Count(), RecvTcps(w, st1, tail).value.1);
        }
      }
    }
  }

  lemma StillConserved(st: State)
    ensures Conserved(st, st, 0)
  {
    assert st.disconnected[|st.disconnected|..] == [];
  }

  lemma {:induction false} UdpsConserve(w: Setup, st: State)
    requires w.Sound() && |st.msgBuff| == w.parts.MidCount()
    ensures RecvUdps(w, st).Returned? ==> Conserved(st, RecvUdps(w, st).value.0, RecvUdps(w, st).value.1)
  {
    var d := DrainUdp(w, st.cidAddr, st.addrCid, st.udp);
    if d.Returned? {
      Pushed(st.msgBuff, d.value.got);
      assert st.disconnected[|st.disconnected|..] == [];
    }
  }

  /** `recv_msgs` returns exactly the growth of the buffers plus the graceful
      disconnects it queued; what was buffered or queued before stays in front. */
  lemma {:induction false} RecvConserves(w: Setup, st: State, cids: seq<CId>)
    requires w.Sound() && |st.msgBuff| == w.parts.MidCount()
    requires forall c :: c in cids ==> c in st.tcp
    ensures RecvMsgs(w, st, cids).Returned? ==> Conserved(st, RecvMsgs(w, st, cids).value.0, RecvMsgs(w, st, cids).value.1)
  {
    hide RecvTcps, RecvUdps, Conserved, Setup.Sound;
    TcpsConserve(w, st, cids);
    RecvTcpsKeeps(w, st, cids);
    var a := RecvTcps(w, st, cids);
    if a.Returned? {
      UdpsConserve(w, a.value.0);
      if RecvUdps(w, a.value.0).Returned? {
        ConservedTrans(st, a.value.0, RecvUdps(w, a.value.0).value.0, a.value.1, RecvUdps(w, a.value.0).value.1);
      }
    }
  }

  /** Clearing leaves every buffer empty and changes nothing else, and the next
      `recv_msgs` counts exactly what the buffers then hold and the graceful ends. */
  lemma {:induction false} ClearEmpties(w: Setup, st: State, cids: seq<CId>)
    requires w.Sound() && |st.msgBuff| == w.parts.MidCount()
    requires forall c :: c in cids ==> c in st.tcp
    ensures var st1 := ClearMsgs(st);
            && |st1.msgBuff| == |st.msgBuff| && st1 == st.(msgBuff := st1.msgBuff)
            && (forall mid :: 0 <= mid < |st.msgBuff| ==> st1.msgBuff[mid] == [])
            && (RecvMsgs(w, st1, cids).Returned? ==>
                  var (st2, n) := RecvMsgs(w, st1, cids).value;
                  st.disconnected <= st2.disconnected
                  && n == Total(st2.msgBuff) + Graceful(st2.disconnected[|st.disconnected|..]))
  {
    var st1 := ClearMsgs(st);
    RecvConserves(w, st1, cids);
    EmptyTotal(st1.msgBuff);
    hide RecvMsgs, Total, Graceful, Setup.Sound;
  }

  lemma {:induction false} EmptyTotal(b: Buffers)
    requires forall mid :: 0 <= mid < |b| ==> b[mid] == []
    ensures Total(b) == 0
  {
    if b != [] {
      EmptyTotal(b[1..]);
    }
  }

  // ------------------------------------------------------------------- datagrams

  /** What one packet is to the server, whatever else is in the inbox. */
  function Judge(w: Setup, cidAddr: map<CId, Addr>, addrCid: map<Addr, CId>, p: Packet): Outcome<Io<Letter>> {
    RecvUdpOn(w, cidAddr, addrCid, UdpSocket([p], [], 0, 0, None)).0
  }

  predicate Good(o: Outcome<Io<Letter>>) {
    o.Returned? && o.value.Ok?
  }

  lemma NextJudged(w: Setup, cidAddr: map<CId, Addr>, addrCid: map<Addr, CId>, u: UdpSocket)
    ensures RecvUdpOn(w, cidAddr, addrCid, u) ==
            if u.inbox == [] then (Returned(Err(WouldBlock)), u)
            else (Judge(w, cidAddr, addrCid, u.inbox[0]), u.(inbox := u.inbox[1..]))
  {
  }

  /** `recv_msgs` buffers the datagrams in front of the first one it cannot use, and
      that one is lost with no further datagram looked at; it panics exactly when
      that one does. */
  lemma {:induction false} UdpTakes(w: Setup, cidAddr: map<CId, Addr>, addrCid: map<Addr, CId>, u: UdpSocket, n: nat)
    requires n <= |u.inbox| && forall k :: 0 <= k < n ==> Good(Judge(w, cidAddr, addrCid, u.inbox[k]))
    requires n < |u.inbox| ==> !Good(Judge(w, cidAddr, addrCid, u.inbox[n]))
    ensures var d := DrainUdp(w, cidAddr, addrCid, u);
            && (d.Panicked? <==> n < |u.inbox| && Judge(w, cidAddr, addrCid, u.inbox[n]).Panicked?)
            && (d.Returned? ==>
                  && |d.value.got| == n
                  && (forall k :: 0 <= k < n ==> Judge(w, cidAddr, addrCid, u.inbox[k]) == Returned(Ok(d.value.got[k])))
                  && d.value.sock == u.(inbox := u.inbox[Min(n + 1, |u.inbox|)..]))
    decreases n
  {
    NextJudged(w, cidAddr, addrCid, u);
    hide RecvUdpOn, Judge;
    if u.inbox != [] {
      var u1 := u.(inbox := u.inbox[1..]);
      if n > 0 {
        UdpTakes(w, cidAddr, addrCid, u1, n - 1);
        assert u1.inbox[Min(n, |u1.inbox|)..] == u.inbox[Min(n + 1, |u.inbox|)..];
      }
    }
  }

  /** The usable ones among all packets. */
  function Usable(w: Setup, cidAddr: map<CId, Addr>, addrCid: map<Addr, CId>, inbox: seq<Packet>): seq<Letter> {
    if inbox == [] then []
    else
      var o := Judge(w, cidAddr, addrCid, inbox[0]);
      (if Good(o) then [o.value.value] else []) + Usable(w, cidAddr, addrCid, inbox[1..])
  }

  lemma {:induction false} UsableNone(w: Setup, cidAddr: map<CId, Addr>, addrCid: map<Addr, CId>, inbox: seq<Packet>)
    ensures Usable(w, cidAddr, addrCid, inbox) == [] <==> forall k :: 0 <= k < |inbox| ==> !Good(Judge(w, cidAddr, addrCid, inbox[k]))
    decreases |inbox|
  {
    hide Judge;
    if inbox != [] {
      UsableNone(w, cidAddr, addrCid, inbox[1..]);
      assert forall k :: 0 < k < |inbox| ==> inbox[k] == inbox[1..][k - 1];
    }
  }

  /** What the loop buffers, and what comes behind the packet that ends it. */
  lemma {:induction false} UsableSplit(w: Setup, cidAddr: map<CId, Addr>, addrCid: map<Addr, CId>, u: UdpSocket)
    requires DrainUdp(w, cidAddr, addrCid, u).Returned?
    ensures var d := DrainUdp(w, cidAddr, addrCid, u).value;
            Usable(w, cidAddr, addrCid, u.inbox) == d.got + Usable(w, cidAddr, addrCid, d.sock.inbox)
    decreases |u.inbox|
  {
    NextJudged(w, cidAddr, addrCid, u);
    hide RecvUdpOn, Judge;
    if u.inbox != [] {
      var u1 := u.(inbox := u.inbox[1..]);
      if Good(Judge(w, cidAddr, addrCid, u.inbox[0])) {
        UsableSplit(w, cidAddr, addrCid, u1);
        var rest := DrainUdp(w, cidAddr, addrCid, u1).value;
        Assoc([Judge(w, cidAddr, addrCid, u.inbox[0]).value.value], rest.got, Usable(w, cidAddr, addrCid, rest.sock.inbox));
      } else {
        Units(Usable(w, cidAddr, addrCid, u.inbox[1..]));
      }
    }
  }

  /** `recv_msgs` buffers all the usable datagrams that are there exactly when none of
      them lies behind one that is not usable. */
  lemma {:induction false} AllUsableExactly(w: Setup, cidAddr: map<CId, Addr>, addrCid: map<Addr, CId>, u: UdpSocket, n: nat)
    requires DrainUdp(w, cidAddr, addrCid, u).Returned?
    requires n <= |u.inbox| && forall k :: 0 <= k < n ==> Good(Judge(w, cidAddr, addrCid, u.inbox[k]))
    requires n < |u.inbox| ==> !Good(Judge(w, cidAddr, addrCid, u.inbox[n]))
    ensures DrainUdp(w, cidAddr, addrCid, u).value.got == Usable(w, cidAddr, addrCid, u.inbox) <==>
            forall k :: n < k < |u.inbox| ==> !Good(Judge(w, cidAddr, addrCid, u.inbox[k]))
  {
    hide *;
    UdpTakes(w, cidAddr, addrCid, u, n);
    UsableSplit(w, cidAddr, addrCid, u);
    BehindIs(u.inbox, n);
    UsableNone(w, cidAddr, addrCid, u.inbox[Min(n + 1, |u.inbox|)..]);
  }

  lemma {:induction false} BehindIs(inbox: seq<Packet>, n: nat)
    requires n <= |inbox|
    ensures 0 <= Min(n + 1, |inbox|) <= |inbox|
    ensures var rest := inbox[Min(n + 1, |inbox|)..];
            && (forall k :: 0 <= k < |rest| ==> n < n + 1 + k < |inbox| && rest[k] == inbox[n + 1 + k])
            && (forall k :: n < k < |inbox| ==> 0 <= k - n - 1 < |rest| && inbox[k] == rest[k - n - 1])
  {
  }

  /** One error report in front is enough to keep a usable datagram from being buffered. */
  lemma {:induction false} ErrorHidesDatagram(w: Setup, cidAddr: map<CId, Addr>, addrCid: map<Addr, CId>, u: UdpSocket, p: Packet)
    requires u.inbox == [Fault(Other), p] && Good(Judge(w, cidAddr, addrCid, p))
    ensures DrainUdp(w, cidAddr, addrCid, u) == Returned(UdpDrained(u.(inbox := [p]), []))
    ensures |Usable(w, cidAddr, addrCid, u.inbox)| == 1
  {
    assert u.inbox[1..] == [p] && [p][1..] == [];
    assert !Good(Judge(w, cidAddr, addrCid, u.inbox[0]));
    assert Usable(w, cidAddr, addrCid, [p]) == [Judge(w, cidAddr, addrCid, p).value.value] + Usable(w, cidAddr, addrCid, []);
  }

  /** The two maps of the server are inverse to each other. */
  ghost predicate Mirrored(cidAddr: map<CId, Addr>, addrCid: map<Addr, CId>) {
    && (forall c :: c in cidAddr ==> cidAddr[c] in addrCid && addrCid[cidAddr[c]] == c)
    && (forall a :: a in addrCid ==> addrCid[a] in cidAddr && cidAddr[addrCid[a]] == a)
  }

  /** A packet is used exactly when it is a readable datagram with a known id and a
      payload of that id's type from a registered address; the message is then
      attributed to the one live connection with that address, with the send time. */
  lemma Attributed(w: Setup, cidAddr: map<CId, Addr>, addrCid: map<Addr, CId>, p: Packet)
    requires Mirrored(cidAddr, addrCid)
    ensures var o, r := Judge(w, cidAddr, addrCid, p), Read(w.UdpSize(), p);
            && (Good(o) <==>
                && r.Returned? && r.value.Ok? && r.value.value.from in addrCid
                && r.value.value.mid < |w.parts.deser| && r.value.value.mid <= w.parts.MidCount()
                && w.serde.deser(w.parts.deser[r.value.value.mid].tid, r.value.value.payload).Some?)
            && (Good(o) ==>
                  var l := o.value.value;
                  && p.Datagram? && l.msg.cid in cidAddr && cidAddr[l.msg.cid] == p.from
                  && l.mid == r.value.value.mid && l.msg.time == Some(r.value.value.time)
                  && w.Decode(l.mid, r.value.value.payload) == Returned(Ok(l.msg.msg)))
  {
  }

  /** A datagram from an address without a live connection is never buffered. */
  lemma {:induction false} StrangersRefused(w: Setup, cidAddr: map<CId, Addr>, addrCid: map<Addr, CId>, p: Packet)
    requires p.Datagram? && (p.from in addrCid ==> addrCid[p.from] !in cidAddr)
    ensures !Good(Judge(w, cidAddr, addrCid, p))
  {
  }

  // --------------------------------------------------------------- typed buffers

  /** Every buffered message has the type its buffer is for. */
  ghost predicate Typed(w: Setup, b: Buffers)
    requires |b| == |w.parts.deser|
  {
    forall mid :: 0 <= mid < |b| ==> AllOf(b[mid], w.parts.deser[mid].tid)
  }

  ghost predicate TypedLetters(w: Setup, got: seq<Letter>) {
    forall l :: l in got ==> l.mid < |w.parts.deser| && l.msg.msg.tid == w.parts.deser[l.mid].tid
  }

  lemma {:induction false} DrainTyped(w: Setup, cid: CId, s: Socket)
    requires Faithful(w.serde)
    ensures Drain(w, cid, s).Returned? ==> TypedLetters(w, Drain(w, cid, s).value.got)
    decreases |Upcoming(s)|
  {
    var (o, t) := RecvMsgOn(w, cid, s);
    if o.Returned? && o.value.Ok? && o.value.value.mid != DISCONNECT_TYPE_MID {
      DrainTyped(w, cid, t);
    }
  }

  lemma {:induction false} DrainUdpTyped(w: Setup, cidAddr: map<CId, Addr>, addrCid: map<Addr, CId>, u: UdpSocket)
    requires Faithful(w.serde)
    ensures DrainUdp(w, cidAddr, addrCid, u).Returned? ==> TypedLetters(w, DrainUdp(w, cidAddr, addrCid, u).value.got)
    decreases |u.inbox|
  {
    var (o, u1) := RecvUdpOn(w, cidAddr, addrCid, u);
    if o.Returned? && o.value.Ok? {
      DrainUdpTyped(w, cidAddr, addrCid, u1);
    }
  }

  lemma {:induction false} PushTyped(w: Setup, b: Buffers, got: seq<Letter>)
    requires |b| == |w.parts.deser| && Below(got, |b|) && Typed(w, b) && TypedLetters(w, got)
    ensures Typed(w, PushAll(b, got))
    decreases |got|
  {
    if got != [] {
      assert got[0] in got;
      PushTyped(w, Push(b, got[0]), got[1..]);
    }
  }

  lemma {:induction false} FromSpecIn(b: seq<ErasedNetMsg>, spec: CIdSpec)
    ensures forall m :: m in FromSpec(b, spec) <==> m in b && spec.Matches(m.cid)
  {
    if b != [] {
      FromSpecIn(b[1..], spec);
      HeadTail(b);
      var head := if spec.Matches(b[0].cid) then [b[0]] else [];
      assert forall m :: m in FromSpec(b, spec) <==> m in head || m in FromSpec(b[1..], spec);
      assert forall m :: m in b <==> m == b[0] || m in b[1..];
    }
  }

  /** With typed buffers `recv_spec` panics exactly for types that are not registered,
      and otherwise yields the messages of the type's buffer from matching ids. */
  lemma {:induction false} RecvSpecYields(w: Setup, st: State, tid: TypeId, spec: CIdSpec)
    requires w.Sound() && |st.msgBuff| == w.parts.MidCount() && Typed(w, st.msgBuff)
    ensures RecvSpec(w, st, tid, spec).Panicked? <==> tid !in w.parts.tidMap
    ensures tid in w.parts.tidMap ==>
              RecvSpec(w, st, tid, spec) == Returned(FromSpec(st.msgBuff[w.parts.tidMap[tid]], spec))
  {
    if tid in w.parts.tidMap {
      FromSpecIn(st.msgBuff[w.parts.tidMap[tid]], spec);
    }
  }

  ghost predicate TypedState(w: Setup, st: State) {
    |st.msgBuff| == |w.parts.deser| && Typed(w, st.msgBuff)
  }

  lemma {:induction false} MoveTyped(w: Setup, st: State, mv: Move)
    requires w.Sound() && Faithful(w.serde) && Inv(w, st) && TypedState(w, st) && Do(w, st, mv).Returned?
    ensures TypedState(w, Do(w, st, mv).value)
  {
    assert |st.msgBuff| == w.parts.MidCount();
    hide Inv, RecvCon, RecvUdps, Poll, Settle, SendTo, TellFirst, Issue, WorldMoves, Faithful;
    if mv.Take? {
      TakeTyped(w, st, mv.cid);
    } else if mv.TakeUdp? {
      UdpTyped(w, st);
    } else if !mv.Empty? {
      BuffersKept(w, st, mv);
    }
  }

  lemma {:induction false} TakeTyped(w: Setup, st: State, cid: CId)
    requires w.Sound() && |st.msgBuff| == w.parts.MidCount() && Faithful(w.serde) && cid in st.tcp && TypedState(w, st)
    ensures RecvCon(w, st, cid).Returned? ==> TypedState(w, RecvCon(w, st, cid).value.0)
  {
    Receiving.RecvConPanics(w, st, cid);
    hide Drain, Typed, RecvCon, Faithful, Setup.Sound;
    if RecvCon(w, st, cid).Returned? {
      Receiving.RecvConAbsorbs(w, st, cid);
      DrainTyped(w, cid, st.tcp[cid]);
      PushTyped(w, st.msgBuff, Receiving.DrainOf(w, st, cid).value.got);
    }
  }

  lemma {:induction false} UdpTyped(w: Setup, st: State)
    requires w.Sound() && |st.msgBuff| == w.parts.MidCount() && Faithful(w.serde) && TypedState(w, st)
    requires RecvUdps(w, st).Returned?
    ensures TypedState(w, RecvUdps(w, st).value.0)
  {
    hide Typed, Faithful, DrainUdp;
    DrainUdpTyped(w, st.cidAddr, st.addrCid, st.udp);
    PushTyped(w, st.msgBuff, DrainUdp(w, st.cidAddr, st.addrCid, st.udp).value.got);
  }

  /** Over any run with a faithful serializer, `recv_spec` (and `recv`) of a registered
      type never panics, and yields the buffered messages of that type from the ids
      that match. */
  lemma {:induction false} TypedOverRuns(w: Setup, listener: seq<Option<Arrival>>, udp: UdpSocket, ops: seq<Op>, st: State, tid: TypeId, spec: CIdSpec)
    requires w.Complete() && Faithful(w.serde) && Run(w, Start(w, listener, udp), ops, st) && st.history.issued < CID_COUNT
    ensures |st.msgBuff| == w.parts.MidCount()
    ensures RecvSpec(w, st, tid, spec).Panicked? <==> tid !in w.parts.tidMap
    ensures tid in w.parts.tidMap ==>
              var b := st.msgBuff[w.parts.tidMap[tid]];
              && RecvSpec(w, st, tid, spec) == Returned(FromSpec(b, spec))
              && forall m :: m in FromSpec(b, spec) <==> m in b && spec.Matches(m.cid)
  {
    var start := Start(w, listener, udp);
    StartInv(w, listener, udp);
    RunKeeps(w, start, ops, st);
    var p, ok := (s: State) => TypedState(w, s), (op: Op) => true;
    assert Kept(w, p, ok) by {
      forall s: State, op: Op, mv: Move | Inv(w, s) && p(s) && ok(op) && PartOf(op, mv) && Do(w, s, mv).Returned?
                                           && Do(w, s, mv).value.history.issued < CID_COUNT
        ensures p(Do(w, s, mv).value)
      {
        MoveTyped(w, s, mv);
      }
    }
    RunKeepsMore(w, start, ops, st, p, ok);
    RecvSpecYields(w, st, tid, spec);
    if tid in w.parts.tidMap {
      FromSpecIn(st.msgBuff[w.parts.tidMap[tid]], spec);
    }
  }
}
