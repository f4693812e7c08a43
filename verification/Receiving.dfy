/** What one `recv_msgs` of the server does, connection by connection. */
module Receiving {
  import opened Prelude
  import opened Net
  import opened MessageTable
  import opened Tcp
  import opened Inbound
  import opened ServerModel

  /** The messages of one connection, in the order of the buffer. */
  function FromCid(b: seq<ErasedNetMsg>, c: CId): seq<ErasedNetMsg> {
    FromSpec(b, Only(c))
  }

  lemma {:induction false} FromSpecConcat(a: seq<ErasedNetMsg>, b: seq<ErasedNetMsg>, spec: CIdSpec)
    ensures FromSpec(a + b, spec) == FromSpec(a, spec) + FromSpec(b, spec)
    decreases |a|
  {
    if a == [] {
      Units(b);
      Units(FromSpec(b, spec));
    } else {
      assert (a + b)[0] == a[0] && (a + b)[1..] == a[1..] + b;
      FromSpecConcat(a[1..], b, spec);
      Assoc(if spec.Matches(a[0].cid) then [a[0]] else [], FromSpec(a[1..], spec), FromSpec(b, spec));
    }
  }

  /** The entries of one connection in the disconnect queue. */
  function EntriesOf(q: seq<(CId, Status)>, c: CId): seq<Status> {
    if q == [] then [] else (if q[0].0 == c then [q[0].1] else []) + EntriesOf(q[1..], c)
  }

  lemma {:induction false} EntriesAppend(q: seq<(CId, Status)>, cid: CId, status: Status, c: CId)
    ensures EntriesOf(q + [(cid, status)], c) == EntriesOf(q, c) + if cid == c then [status] else []
    decreases |q|
  {
    var last := if cid == c then [status] else [];
    if q == [] {
      assert q + [(cid, status)] == [(cid, status)];
      Units(last);
    } else {
      assert (q + [(cid, status)])[0] == q[0] && (q + [(cid, status)])[1..] == q[1..] + [(cid, status)];
      EntriesAppend(q[1..], cid, status, c);
      Assoc(if q[0].0 == c then [q[0].1] else [], EntriesOf(q[1..], c), last);
    }
  }

  /** Letters of `cid` look the same to `cid`, and like nothing to the others. */
  lemma {:induction false} FromCidOfMid(got: seq<Letter>, cid: CId, mid: MId, c: CId)
    requires FromTcp(got, cid)
    ensures FromCid(OfMid(got, mid), c) == if c == cid then OfMid(got, mid) else []
    decreases |got|
  {
    if got != [] {
      assert got[0] in got && forall l :: l in got[1..] ==> l in got;
      FromCidOfMid(got[1..], cid, mid, c);
      var head := if got[0].mid == mid then [got[0].msg] else [];
      FromSpecConcat(head, OfMid(got[1..], mid), Only(c));
      FromCidOne(head, cid, c);
      if c == cid {
        Units(head);
      }
    }
  }

  lemma {:induction false} FromCidOne(head: seq<ErasedNetMsg>, cid: CId, c: CId)
    requires |head| <= 1 && forall m :: m in head ==> m.cid == cid
    ensures FromCid(head, c) == if c == cid then head else []
  {
    if head != [] {
      assert head[0] in head && head == [head[0]];
      assert FromSpec(head[1..], Only(c)) == [];
    }
  }

  // --------------------------------------------------------------- one connection

  function Ending(d: Drained): seq<Status> {
    if d.end.Some? then [d.end.value] else []
  }

  /** What one connection `c` can tell `st1` from `st` by: its stream, its messages in
      every buffer and its entries in the queue all grew by what `d` says. */
  ghost predicate Grew(st: State, st1: State, c: CId, d: Drained) {
    && c in st1.tcp && st1.tcp[c] == d.sock
    && |st1.msgBuff| == |st.msgBuff|
    && (forall mid :: 0 <= mid < |st.msgBuff| ==>
          FromCid(st1.msgBuff[mid], c) == FromCid(st.msgBuff[mid], c) + OfMid(d.got, mid))
    && EntriesOf(st1.disconnected, c) == EntriesOf(st.disconnected, c) + Ending(d)
  }

  /** Nothing of connection `c` changed. */
  ghost predicate Untouched(st: State, st1: State, c: CId) {
    && (c in st1.tcp <==> c in st.tcp) && (c in st.tcp ==> st1.tcp[c] == st.tcp[c])
    && |st1.msgBuff| == |st.msgBuff|
    && (forall mid :: 0 <= mid < |st.msgBuff| ==> FromCid(st1.msgBuff[mid], c) == FromCid(st.msgBuff[mid], c))
    && EntriesOf(st1.disconnected, c) == EntriesOf(st.disconnected, c)
  }

  lemma {:induction false} AbsorbGrows(st: State, cid: CId, d: Drained, c: CId)
    requires cid in st.tcp && Below(d.got, |st.msgBuff|) && FromTcp(d.got, cid)
    ensures c == cid ==> Grew(st, Absorb(st, cid, d), c, d)
    ensures c != cid ==> Untouched(st, Absorb(st, cid, d), c)
  {
    var st1 := Absorb(st, cid, d);
    forall mid | 0 <= mid < |st.msgBuff|
      ensures FromCid(st1.msgBuff[mid], c) == FromCid(st.msgBuff[mid], c) + if c == cid then OfMid(d.got, mid) else []
    {
      PushAllAppends(st.msgBuff, d.got, mid);
      FromSpecConcat(st.msgBuff[mid], OfMid(d.got, mid), Only(c));
      FromCidOfMid(d.got, cid, mid, c);
    }
    if d.end.Some? {
      EntriesAppend(st.disconnected, cid, d.end.value, c);
    }
    if c != cid {
      forall mid | 0 <= mid < |st.msgBuff|
        ensures FromCid(st1.msgBuff[mid], c) == FromCid(st.msgBuff[mid], c)
      {
        Units(FromCid(st.msgBuff[mid], c));
      }
      Units(EntriesOf(st.disconnected, c));
    } else {
      Units(EntriesOf(st.disconnected, c));
    }
  }

  // ------------------------------------------------------- all connections, any order

  function DrainOf(w: Setup, st: State, c: CId): Outcome<Drained>
    requires c in st.tcp
  {
    Drain(w, c, st.tcp[c])
  }

  /** Every visited connection grew by its own stream alone, and no other changed. */
  ghost predicate EachGrew(w: Setup, st: State, st1: State, cids: seq<CId>)
    requires forall c :: c in cids ==> c in st.tcp
  {
    && (forall c :: c in cids ==> DrainOf(w, st, c).Returned? && Grew(st, st1, c, DrainOf(w, st, c).value))
    && (forall c :: c !in cids ==> Untouched(st, st1, c))
  }

  lemma GrewAfter(st: State, st1: State, st2: State, c: CId, d: Drained)
    ensures Grew(st, st1, c, d) && Untouched(st1, st2, c) ==> Grew(st, st2, c, d)
    ensures Untouched(st, st1, c) && Grew(st1, st2, c, d) ==> Grew(st, st2, c, d)
    ensures Untouched(st, st1, c) && Untouched(st1, st2, c) ==> Untouched(st, st2, c)
  {
  }

  /** Reading `cid` first, and then the others. */
  lemma {:induction false} EachGrewFrom(w: Setup, st: State, st1: State, st2: State, cid: CId, cids: seq<CId>)
    requires cid !in cids && cid in st.tcp && DrainOf(w, st, cid).Returned?
    requires forall c :: c in cids ==> c in st.tcp && c in st1.tcp && DrainOf(w, st1, c) == DrainOf(w, st, c)
    requires Grew(st, st1, cid, DrainOf(w, st, cid).value)
    requires forall c :: c != cid ==> Untouched(st, st1, c)
    requires EachGrew(w, st1, st2, cids)
    ensures EachGrew(w, st, st2, [cid] + cids)
  {
    hide Grew, Untouched, DrainOf;
    forall c: CId
      ensures c in [cid] + cids ==> DrainOf(w, st, c).Returned? && Grew(st, st2, c, DrainOf(w, st, c).value)
      ensures c !in [cid] + cids ==> Untouched(st, st2, c)
    {
      GrewAfter(st, st1, st2, c, DrainOf(w, st, if c in cids then c else cid).value);
    }
  }

  lemma {:induction false} DrainFits(w: Setup, st: State, cid: CId)
    requires w.Sound() && |st.msgBuff| == w.parts.MidCount() && cid in st.tcp
    ensures var d := DrainOf(w, st, cid); d.Returned? ==> Below(d.value.got, |st.msgBuff|) && FromTcp(d.value.got, cid)
  {
  }

  lemma {:induction false} RecvConAbsorbs(w: Setup, st: State, cid: CId)
    requires w.Sound() && |st.msgBuff| == w.parts.MidCount() && cid in st.tcp && DrainOf(w, st, cid).Returned?
    ensures Below(DrainOf(w, st, cid).value.got, |st.msgBuff|)
    ensures var d := DrainOf(w, st, cid).value;
            var st1 := Absorb(st, cid, d);
            && RecvCon(w, st, cid) == Returned((st1, d.Count())) && |st1.msgBuff| == |st.msgBuff|
            && (forall c :: c != cid && c in st.tcp ==> c in st1.tcp && DrainOf(w, st1, c) == DrainOf(w, st, c))
            && (forall c :: c in st1.tcp <==> c in st.tcp)
  {
    DrainFits(w, st, cid);
    hide Drain, Below, FromTcp, PushAll, MsgTableParts.Shaped;
    AbsorbShape(st, cid, DrainOf(w, st, cid).value);
    hide Absorb;
  }

  lemma {:induction false} AbsorbShape(st: State, cid: CId, d: Drained)
    requires cid in st.tcp && Below(d.got, |st.msgBuff|)
    ensures var st1 := Absorb(st, cid, d);
            && |st1.msgBuff| == |st.msgBuff|
            && (forall c :: c in st1.tcp <==> c in st.tcp)
            && (forall c :: c in st.tcp ==> st1.tcp[c] == if c == cid then d.sock else st.tcp[c])
  {
  }

  /** Only the stream that is read moves. */
  lemma {:induction false} StreamsAfter(w: Setup, st: State, cid: CId)
    requires w.Sound() && |st.msgBuff| == w.parts.MidCount() && cid in st.tcp
    ensures RecvCon(w, st, cid).Returned? ==>
              && DrainOf(w, st, cid).Returned?
              && forall c :: c in st.tcp ==>
                   c in RecvCon(w, st, cid).value.0.tcp
                   && RecvCon(w, st, cid).value.0.tcp[c] == if c == cid then DrainOf(w, st, cid).value.sock else st.tcp[c]
  {
    hide RecvCon, Drain, Absorb, MsgTableParts.Shaped, Below, FromTcp, DrainOf;
    RecvConPanics(w, st, cid);
    if RecvCon(w, st, cid).Returned? {
      RecvConAbsorbs(w, st, cid);
      AbsorbShape(st, cid, DrainOf(w, st, cid).value);
    }
  }

  /** Reading one connection leaves the others as they were. */
  lemma {:induction false} AbsorbOne(w: Setup, st: State, cid: CId, d: Drained)
    requires cid in st.tcp && Below(d.got, |st.msgBuff|) && FromTcp(d.got, cid)
    ensures Grew(st, Absorb(st, cid, d), cid, d)
    ensures forall c :: c != cid ==> Untouched(st, Absorb(st, cid, d), c)
  {
    hide *;
    forall c: CId
      ensures c == cid ==> Grew(st, Absorb(st, cid, d), c, d)
      ensures c != cid ==> Untouched(st, Absorb(st, cid, d), c)
    {
      AbsorbGrows(st, cid, d, c);
    }
  }

  lemma {:induction false} RecvTcpsGrow(w: Setup, st: State, cids: seq<CId>)
    requires w.Sound() && |st.msgBuff| == w.parts.MidCount()
    requires NoDup(cids) && forall c :: c in cids ==> c in st.tcp
    ensures RecvTcps(w, st, cids).Returned? ==> EachGrew(w, st, RecvTcps(w, st, cids).value.0, cids)
    ensures RecvTcps(w, st, cids).Panicked? <==> exists c :: c in cids && DrainOf(w, st, c).Panicked?
    decreases |cids|
  {
    hide Drain, Absorb, Grew, Setup.Sound, MsgTableParts.Shaped;
    if cids == [] {
      assert EachGrew(w, st, st, cids) by {
        forall c: CId ensures Untouched(st, st, c) {}
      }
    } else {
      var cid, tail := cids[0], cids[1..];
      HeadTail(cids);
      NoDupTail(cids);
      assert forall c :: c in cids <==> c == cid || c in tail;
      hide NoDup, Untouched;
      if DrainOf(w, st, cid).Returned? {
        DrainFits(w, st, cid);
        RecvConAbsorbs(w, st, cid);
        var st1 := Absorb(st, cid, DrainOf(w, st, cid).value);
        AbsorbOne(w, st, cid, DrainOf(w, st, cid).value);
        RecvTcpsGrow(w, st1, tail);
        if RecvTcps(w, st1, tail).Returned? {
          EachGrewFrom(w, st, st1, RecvTcps(w, st1, tail).value.0, cid, tail);
        }
      }
    }
  }

  // ------------------------------------------------- the order does not matter

  function CountOf(w: Setup, st: State): CId -> nat {
    c => if c in st.tcp && DrainOf(w, st, c).Returned? then DrainOf(w, st, c).value.Count() else 0
  }

  lemma {:induction false} RecvTcpsCount(w: Setup, st: State, cids: seq<CId>)
    requires w.Sound() && |st.msgBuff| == w.parts.MidCount()
    requires NoDup(cids) && forall c :: c in cids ==> c in st.tcp
    ensures RecvTcps(w, st, cids).Returned? ==> RecvTcps(w, st, cids).value.1 == Sum(CountOf(w, st), cids)
    decreases |cids|
  {
    hide Drain, Absorb, Setup.Sound, MsgTableParts.Shaped, RecvCon;
    if cids != [] {
      var cid, tail := cids[0], cids[1..];
      NoDupTail(cids);
      RecvConPanics(w, st, cid);
      if DrainOf(w, st, cid).Returned? {
        RecvConAbsorbs(w, st, cid);
        var st1 := Absorb(st, cid, DrainOf(w, st, cid).value);
        RecvTcpsCount(w, st1, tail);
        forall c | c in tail
          ensures CountOf(w, st1)(c) == CountOf(w, st)(c)
        {
          assert c in cids && c != cid;
        }
        SumSame(CountOf(w, st1), CountOf(w, st), tail);
      }
    }
  }

  lemma {:induction false} RecvConPanics(w: Setup, st: State, cid: CId)
    requires w.Sound() && |st.msgBuff| == w.parts.MidCount() && cid in st.tcp
    ensures RecvCon(w, st, cid).Panicked? <==> DrainOf(w, st, cid).Panicked?
  {
    RecvConIs(w, st, cid);
  }

  /** Nothing any connection can notice differs. */
  ghost predicate SameToAll(a: State, b: State) {
    && a == b.(msgBuff := a.msgBuff, disconnected := a.disconnected, history := a.history)
    && |a.msgBuff| == |b.msgBuff|
    && forall c: CId ::
         && (forall mid :: 0 <= mid < |a.msgBuff| ==> FromCid(a.msgBuff[mid], c) == FromCid(b.msgBuff[mid], c))
         && EntriesOf(a.disconnected, c) == EntriesOf(b.disconnected, c)
  }

  ghost predicate Visits(order: seq<CId>, st: State) {
    NoDup(order) && forall c :: c in order <==> c in st.tcp
  }

  lemma GrewSame(st: State, a: State, b: State, c: CId, d: Drained)
    ensures Grew(st, a, c, d) && Grew(st, b, c, d) ==>
              && c in a.tcp && c in b.tcp && a.tcp[c] == b.tcp[c] && |a.msgBuff| == |b.msgBuff|
              && (forall mid :: 0 <= mid < |a.msgBuff| ==> FromCid(a.msgBuff[mid], c) == FromCid(b.msgBuff[mid], c))
              && EntriesOf(a.disconnected, c) == EntriesOf(b.disconnected, c)
    ensures Untouched(st, a, c) && Untouched(st, b, c) ==>
              && (c in a.tcp <==> c in b.tcp) && |a.msgBuff| == |b.msgBuff|
              && (forall mid :: 0 <= mid < |a.msgBuff| ==> FromCid(a.msgBuff[mid], c) == FromCid(b.msgBuff[mid], c))
              && EntriesOf(a.disconnected, c) == EntriesOf(b.disconnected, c)
  {
  }

  lemma {:induction false} TcpsAnyOrder(w: Setup, st: State, here: seq<CId>, there: seq<CId>)
    requires w.Sound() && |st.msgBuff| == w.parts.MidCount()
    requires Visits(here, st) && Visits(there, st)
    ensures RecvTcps(w, st, here).Panicked? <==> RecvTcps(w, st, there).Panicked?
    ensures var a, b := RecvTcps(w, st, here), RecvTcps(w, st, there);
            a.Returned? && b.Returned? ==> a.value.1 == b.value.1 && SameToAll(a.value.0, b.value.0)
  {
    hide RecvTcps, Drain, DrainOf, Setup.Sound, MsgTableParts.Shaped, Grew, Untouched, NoDup;
    var ra, rb := RecvTcps(w, st, here), RecvTcps(w, st, there);
    RecvTcpsGrow(w, st, here);
    RecvTcpsGrow(w, st, there);
    if ra.Returned? && rb.Returned? {
      RecvTcpsCount(w, st, here);
      RecvTcpsCount(w, st, there);
      SumAnyOrder(CountOf(w, st), here, there);
      RecvTcpsKeeps(w, st, here);
      RecvTcpsKeeps(w, st, there);
      SameFromGrown(w, st, ra.value.0, rb.value.0, here, there);
    }
  }

  lemma SameFromGrown(w: Setup, st: State, a: State, b: State, here: seq<CId>, there: seq<CId>)
    requires Visits(here, st) && Visits(there, st)
    requires OnlyReceived(st, a) && OnlyReceived(st, b)
    requires EachGrew(w, st, a, here) && EachGrew(w, st, b, there)
    ensures SameToAll(a, b)
  {
    hide Grew, Untouched, DrainOf, NoDup, FromCid, EntriesOf;
    forall c: CId
      ensures c in a.tcp <==> c in b.tcp
      ensures c in a.tcp ==> a.tcp[c] == b.tcp[c]
      ensures forall mid :: 0 <= mid < |a.msgBuff| ==> FromCid(a.msgBuff[mid], c) == FromCid(b.msgBuff[mid], c)
      ensures EntriesOf(a.disconnected, c) == EntriesOf(b.disconnected, c)
    {
      if c in here {
        GrewSame(st, a, b, c, DrainOf(w, st, c).value);
      } else {
        GrewSame(st, a, b, c, Drained(Socket(0, Feed([], 0, [], false, None, true), 0, [], 0, false, false, false), [], None));
      }
    }
    assert a.tcp == b.tcp;
  }

  /** In whatever order the map of connections is iterated, `recv_msgs` leaves the same
      messages of every id in every buffer, in the same order, the same disconnect
      entries of every id, the same streams and the same count, or panics either way. */
  lemma {:induction false} AnyOrder(w: Setup, st: State, here: seq<CId>, there: seq<CId>)
    requires w.Sound() && |st.msgBuff| == w.parts.MidCount()
    requires Visits(here, st) && Visits(there, st)
    ensures RecvMsgs(w, st, here).Panicked? <==> RecvMsgs(w, st, there).Panicked?
    ensures var a, b := RecvMsgs(w, st, here), RecvMsgs(w, st, there);
            a.Returned? && b.Returned? ==> a.value.1 == b.value.1 && SameToAll(a.value.0, b.value.0)
  {
    hide RecvTcps, Setup.Sound, MsgTableParts.Shaped, SameToAll, DrainUdp, NoDup, PushAll;
    TcpsAnyOrder(w, st, here, there);
    RecvTcpsKeeps(w, st, here);
    RecvTcpsKeeps(w, st, there);
    var a, b := RecvTcps(w, st, here), RecvTcps(w, st, there);
    if a.Returned? && b.Returned? {
      UdpsAfter(w, a.value.0, b.value.0);
    }
  }

  lemma {:induction false} UdpsAfter(w: Setup, a: State, b: State)
    requires w.Sound() && |a.msgBuff| == w.parts.MidCount()
    requires SameToAll(a, b)
    ensures var x, y := RecvUdps(w, a), RecvUdps(w, b);
            && (x.Panicked? <==> y.Panicked?)
            && (x.Returned? ==> x.value.1 == y.value.1 && SameToAll(x.value.0, y.value.0))
  {
    var d := DrainUdp(w, a.cidAddr, a.addrCid, a.udp);
    if d.Returned? {
      var got := d.value.got;
      assert Below(got, |a.msgBuff|);
      hide MsgTableParts.Shaped, DrainUdp;
      forall c: CId, mid | 0 <= mid < |a.msgBuff|
        ensures FromCid(PushAll(a.msgBuff, got)[mid], c) == FromCid(PushAll(b.msgBuff, got)[mid], c)
      {
        hide Below, PushAll, OfMid;
        PushAllAppends(a.msgBuff, got, mid);
        PushAllAppends(b.msgBuff, got, mid);
        FromSpecConcat(a.msgBuff[mid], OfMid(got, mid), Only(c));
        FromSpecConcat(b.msgBuff[mid], OfMid(got, mid), Only(c));
        SameAt(a, b, c, mid);
      }
    }
  }

  lemma {:induction false} SameAt(a: State, b: State, c: CId, mid: MId)
    requires SameToAll(a, b) && mid < |a.msgBuff|
    ensures FromCid(a.msgBuff[mid], c) == FromCid(b.msgBuff[mid], c)
  {
    assert EntriesOf(a.disconnected, c) == EntriesOf(b.disconnected, c);
  }
}
