/** Handling disconnects one by one or all at once. */
module Disconnects {
  import opened Prelude
  import opened Net
  import opened MessageTable
  import opened Tcp
  import opened Inbound
  import opened ServerModel
  import opened Lifecycle

  /** Calling `handle_disconnect` until it returns false, counting. */
  ghost function OneByOne(st: State): (nat, State)
    requires Paired(st)
    decreases |st.disconnected|
  {
    var (handled, st1) := HandleDisconnect(st);
    if !handled then (0, st1)
    else
      var (n, st2) := OneByOne(st1);
      (n + 1, st2)
  }

  /** One `handle_disconnects` is as good as calling `handle_disconnect` until nothing
      is left: same hook calls in the same order, same count, same final state, for
      any queue with repeated and dead ids. */
  lemma {:induction false} BatchIsIteration(st: State)
    requires Paired(st)
    ensures HandleDisconnects(st) == OneByOne(st)
    decreases |st.disconnected|
  {
    hide Tell, Paired;
    if st.disconnected != [] {
      var st1 := st.(disconnected := st.disconnected[1..]);
      PairedAfter(st);
      if st1.Alive(st.disconnected[0].0) {
        BatchIsIteration(TellFirst(st));
      } else {
        BatchIsIteration(st1);
        assert HandleDisconnect(st) == HandleDisconnect(st1);
      }
    }
  }

  lemma {:induction false} PairedAfter(st: State)
    requires Paired(st) && st.disconnected != []
    ensures Paired(st.(disconnected := st.disconnected[1..]))
    ensures st.Alive(st.disconnected[0].0) ==>
              st.disconnected[0].0 in st.tcp && Paired(TellFirst(st)) && TellFirst(st).disconnected == st.disconnected[1..]
  {
  }

  /** The entries the hook is told: of each live id the first one. */
  function Firsts(q: seq<(CId, Status)>, alive: set<CId>): seq<(CId, Status)> {
    if q == [] then []
    else if q[0].0 in alive then [q[0]] + Firsts(q[1..], alive - {q[0].0})
    else Firsts(q[1..], alive)
  }

  lemma {:induction false} FirstsAre(q: seq<(CId, Status)>, alive: set<CId>)
    ensures forall e :: e in Firsts(q, alive) <==> e.0 in alive && First(q, e.0, e.1)
    ensures forall i, j :: 0 <= i < j < |Firsts(q, alive)| ==> Firsts(q, alive)[i].0 != Firsts(q, alive)[j].0
    decreases |q|
  {
    if q != [] {
      var rest := if q[0].0 in alive then alive - {q[0].0} else alive;
      FirstsAre(q[1..], rest);
      var all, tail := Firsts(q, alive), Firsts(q[1..], rest);
      hide First;
      forall e: (CId, Status)
        ensures e in all <==> e.0 in alive && First(q, e.0, e.1)
      {
        FirstHead(q, e.0, e.1);
      }
      forall i, j | 0 <= i < j < |all|
        ensures all[i].0 != all[j].0
      {
        if q[0].0 in alive && i == 0 {
          assert all[j] == tail[j - 1] && tail[j - 1] in tail;
        }
      }
    }
  }

  lemma FirstHead(q: seq<(CId, Status)>, c: CId, status: Status)
    requires q != []
    ensures First(q, c, status) <==> if q[0].0 == c then q[0].1 == status else First(q[1..], c, status)
  {
    if q[0].0 == c {
      if q[0].1 == status {
        assert q[0] == (c, status);
      }
    } else {
      if First(q, c, status) {
        var k :| 0 <= k < |q| && q[k] == (c, status) && forall j :: 0 <= j < k ==> q[j].0 != c;
        assert q[1..][k - 1] == (c, status);
      }
      if First(q[1..], c, status) {
        var k :| 0 <= k < |q[1..]| && q[1..][k] == (c, status) && forall j :: 0 <= j < k ==> q[1..][j].0 != c;
        assert q[k + 1] == (c, status);
        forall j | 0 <= j < k + 1
          ensures q[j].0 != c
        {
          if j > 0 {
            assert q[1..][j - 1].0 != c;
          }
        }
      }
    }
  }

  /** `handle_disconnects` empties the queue, tells the hook about each live id in it
      once, with the first status queued for it and in the order of the queue, retires
      exactly these ids and returns how many there were. */
  lemma {:induction false} DisconnectsTell(st: State)
    requires Paired(st)
    ensures var (n, st1) := HandleDisconnects(st);
            var told := Firsts(st.disconnected, st.cidAddr.Keys);
            && n == |told| && st1.disconnected == []
            && st1.history.told == st.history.told + told
            && (forall c :: c in st1.cidAddr <==> c in st.cidAddr && forall s :: (c, s) !in told)
    decreases |st.disconnected|
  {
    hide Paired;
    if st.disconnected == [] {
      Units(st.history.told);
    } else {
      var e := st.disconnected[0];
      var st1 := st.(disconnected := st.disconnected[1..]);
      PairedAfter(st);
      if st1.Alive(e.0) {
        var st2 := TellFirst(st);
        assert st2.cidAddr.Keys == st.cidAddr.Keys - {e.0};
        DisconnectsTell(st2);
        var tail := Firsts(st2.disconnected, st2.cidAddr.Keys);
        Assoc(st.history.told, [e], tail);
        var told := Firsts(st.disconnected, st.cidAddr.Keys);
        assert told == [e] + tail && e == (e.0, e.1) && e in told;
        assert forall x :: x in told <==> x == e || x in tail;
      } else {
        DisconnectsTell(st1);
      }
    }
  }

  /** `disconnect` succeeds exactly for a live id whose message is sent and whose stream can
      be shut. For another id it reports invalid data and does nothing, and a failure
      shuts nothing and queues nothing. */
  lemma {:induction false} DisconnectSucceeds(w: Setup, st: State, cid: CId, m: Msg)
    requires w.Sound() && Paired(st)
    ensures Disconnect(w, st, cid, m).Returned?
    ensures var (st1, r) := Disconnect(w, st, cid, m).value;
            && (r.Ok? <==> cid in st.tcp && SendTo(w, st, cid, m).0.Ok? && !st.tcp[cid].shutFails)
            && (cid !in st.tcp ==> r == Err(InvalidData) && st1 == st)
            && (r.Err? && cid in st.tcp ==> st1 == SendTo(w, st, cid, m).1)
  {
    if cid in st.tcp {
      SendKeepsShut(w, st, cid, m);
      hide SendTo;
    }
  }

  lemma {:induction false} SendKeepsShut(w: Setup, st: State, cid: CId, m: Msg)
    requires w.Sound() && cid in st.tcp
    ensures cid in SendTo(w, st, cid, m).1.tcp && SendTo(w, st, cid, m).1.tcp[cid].shutFails == st.tcp[cid].shutFails
  {
  }

  /** A `disconnect` that succeeds shuts the stream behind the disconnect message, and
      the next `handle_disconnects` retires the id and tells the hook about it once:
      with `Closed`, unless something else was queued for it before. */
  lemma {:induction false} DisconnectIsTold(w: Setup, st: State, cid: CId, m: Msg)
    requires w.Sound() && Paired(st)
    requires Disconnect(w, st, cid, m).Returned? && Disconnect(w, st, cid, m).value.1.Ok?
    ensures var st1 := Disconnect(w, st, cid, m).value.0;
            && Paired(st1) && cid in st1.tcp && st1.tcp[cid].shut
            && (w.Over(m, TCP) ==> st1.tcp[cid].out == st.tcp[cid].out + Encode(w.FrameOf(m)))
            && var told := Firsts(st1.disconnected, st1.cidAddr.Keys);
               && HandleDisconnects(st1).1.history.told == st1.history.told + told
               && !HandleDisconnects(st1).1.Alive(cid)
               && (forall status :: (cid, status) in told <==>
                     if exists s :: First(st.disconnected, cid, s) then First(st.disconnected, cid, status) else status == Closed)
  {
    var st1 := Disconnect(w, st, cid, m).value.0;
    DisconnectShape(w, st, cid, m);
    DisconnectsTell(st1);
    FirstsAre(st1.disconnected, st1.cidAddr.Keys);
    hide Disconnect, HandleDisconnects, Firsts, First, Paired, Setup.Sound, Setup.Over, Setup.FrameOf;
    forall status: Status
      ensures First(st1.disconnected, cid, status) <==>
              if exists s :: First(st.disconnected, cid, s) then First(st.disconnected, cid, status) else status == Closed
    {
      FirstBehind(st.disconnected, cid, Closed, status);
    }
    var told := Firsts(st1.disconnected, st1.cidAddr.Keys);
    SomeFirst(st.disconnected, cid, Closed);
    var s :| First(st1.disconnected, cid, s);
    assert (cid, s) in told;
  }

  lemma {:induction false} DisconnectShape(w: Setup, st: State, cid: CId, m: Msg)
    requires w.Sound() && Paired(st)
    requires Disconnect(w, st, cid, m).Returned? && Disconnect(w, st, cid, m).value.1.Ok?
    ensures var st1 := Disconnect(w, st, cid, m).value.0;
            && Paired(st1) && cid in st.tcp && cid in st1.tcp && st1.tcp[cid].shut && cid in st1.cidAddr
            && st1.disconnected == st.disconnected + [(cid, Closed)]
            && (w.Over(m, TCP) ==> st1.tcp[cid].out == st.tcp[cid].out + Encode(w.FrameOf(m)))
  {
    RouteIs(w, m, TCP);
    hide MsgTableParts.Shaped, Encode;
  }

  /** An entry at the end is the first of its id if the id had none. */
  lemma FirstBehind(q: seq<(CId, Status)>, c: CId, last: Status, status: Status)
    ensures First(q + [(c, last)], c, status) <==>
            if exists s :: First(q, c, s) then First(q, c, status) else status == last
    decreases |q|
  {
    var all := q + [(c, last)];
    FirstHead(all, c, status);
    if q == [] {
      assert all[0] == (c, last);
    } else {
      assert all[0] == q[0] && all[1..] == q[1..] + [(c, last)];
      FirstBehind(q[1..], c, last, status);
      forall s
        ensures First(q, c, s) <==> if q[0].0 == c then q[0].1 == s else First(q[1..], c, s)
      {
        FirstHead(q, c, s);
      }
      assert q[0].0 == c ==> First(q, c, q[0].1);
    }
  }

  lemma SomeFirst(q: seq<(CId, Status)>, c: CId, last: Status)
    ensures exists s :: First(q + [(c, last)], c, s)
  {
    if s :| First(q, c, s) {
      FirstBehind(q, c, last, s);
    } else {
      FirstBehind(q, c, last, last);
    }
  }
}
