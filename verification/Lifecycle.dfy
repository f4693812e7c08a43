/** What every run of the server keeps: ids, stages, the disconnect queue and the hooks. */
module Lifecycle {
  import opened Prelude
  import opened Net
  import opened Inbound
  import opened ServerModel

  // ------------------------------------------------------------------ invariants

  ghost predicate IsPending(st: State, c: CId) {
    exists i :: 0 <= i < |st.newCons| && st.newCons[i].cid == c
  }

  /** The calls below can be made: the buffers are complete and every live id has a stream. */
  ghost predicate Fit(w: Setup, st: State) {
    |st.msgBuff| == w.parts.MidCount() && Paired(st)
  }

  /** Every id from 1 to the last one issued is in exactly one stage. */
  ghost predicate Staged(st: State) {
    && st.currentCid == st.history.issued
    && (forall i, j :: 0 <= i < j < |st.newCons| ==> st.newCons[i].cid != st.newCons[j].cid)
    && (forall c: CId :: 1 <= c <= st.history.issued <==> IsPending(st, c) || c in st.tcp || c in st.history.dropped)
    && (forall c: CId :: IsPending(st, c) ==> c !in st.tcp && c !in st.history.dropped)
    && (forall c: CId :: c in st.tcp ==> c !in st.history.dropped)
  }

  ghost predicate First(queued: seq<(CId, Status)>, c: CId, status: Status) {
    exists k :: 0 <= k < |queued| && queued[k] == (c, status) && forall j :: 0 <= j < k ==> queued[j].0 != c
  }

  ghost predicate Told(st: State, c: CId) {
    exists k :: 0 <= k < |st.history.told| && st.history.told[k].0 == c
  }

  /** How many entries were taken out of the disconnect queue. */
  ghost function Popped(st: State): int {
    |st.history.queued| - |st.disconnected|
  }

  /** The disconnect queue is what is left of everything queued, only ids that were
      live are in it, a live id has no entry that was taken out, and the hook was told
      about an id once, with the first status queued for it. */
  ghost predicate Queued(st: State) {
    var queued := st.history.queued;
    && 0 <= Popped(st) && queued[Popped(st)..] == st.disconnected
    && (forall k :: 0 <= k < |queued| ==> queued[k].0 in st.tcp || Told(st, queued[k].0))
    && (forall k :: 0 <= k < Popped(st) ==> queued[k].0 !in st.tcp)
    && (forall i, j :: 0 <= i < j < |st.history.told| ==> st.history.told[i].0 != st.history.told[j].0)
    && (forall k :: 0 <= k < |st.history.told| ==>
          st.history.told[k].0 in st.history.dropped && First(queued, st.history.told[k].0, st.history.told[k].1))
  }

  ghost predicate Inv(w: Setup, st: State) {
    && Fit(w, st) && |st.newCons| <= w.config.maxConHandle
    && (st.history.issued < CID_COUNT ==> Staged(st) && Queued(st))
  }

  // ------------------------------------------------------------------------ stages

  /** 0 not issued, 1 pending, 2 registered, 3 gone. */
  ghost function Stage(st: State, c: CId): nat {
    if c in st.history.dropped then 3 else if c in st.tcp then 2 else if IsPending(st, c) then 1 else 0
  }

  /** No id moves back, and what is over stays as it was. */
  ghost predicate Later(st: State, st1: State) {
    && st.history.issued <= st1.history.issued
    && (st1.history.issued < CID_COUNT ==> forall c: CId :: Stage(st, c) <= Stage(st1, c))
    && st.history.told <= st1.history.told && st.history.queued <= st1.history.queued
  }

  lemma LaterTrans(a: State, b: State, c: State)
    requires Later(a, b) && Later(b, c)
    ensures Later(a, c)
  {
    if c.history.issued < CID_COUNT {
      forall x: CId ensures Stage(a, x) <= Stage(c, x) {
        assert Stage(a, x) <= Stage(b, x) && Stage(b, x) <= Stage(c, x);
      }
    }
  }

  // -------------------------------------------------------------- the primitive steps

  /** Steps that move no id: streams, buffers, clocks and the listener may change. */
  ghost predicate SameStages(st: State, st1: State) {
    && st1.currentCid == st.currentCid && |st1.msgBuff| == |st.msgBuff|
    && st1.disconnected == st.disconnected && st1.cidAddr == st.cidAddr
    && |st1.newCons| == |st.newCons|
    && (forall i :: 0 <= i < |st.newCons| ==> st1.newCons[i].cid == st.newCons[i].cid)
    && (forall c :: c in st1.tcp <==> c in st.tcp)
    && st1.history == st.history.(asked := st1.history.asked)
  }

  lemma SameStage(st: State, st1: State, c: CId)
    requires SameStages(st, st1)
    ensures IsPending(st1, c) <==> IsPending(st, c)
    ensures Stage(st1, c) == Stage(st, c)
  {
  }

  lemma SameKeeps(w: Setup, st: State, st1: State)
    requires Inv(w, st) && SameStages(st, st1)
    ensures Inv(w, st1) && Later(st, st1)
  {
    forall c: CId
      ensures IsPending(st1, c) <==> IsPending(st, c)
      ensures Stage(st1, c) == Stage(st, c)
      ensures Told(st1, c) <==> Told(st, c)
    {
      SameStage(st, st1, c);
    }
  }

  lemma {:induction false} IssueKeeps(w: Setup, st: State, a: Arrival, now: nat)
    requires Inv(w, st) && |st.newCons| < w.config.maxConHandle
    ensures Inv(w, Issue(st, a, now)) && Later(st, Issue(st, a, now))
  {
    var st1 := Issue(st, a, now);
    if st1.history.issued < CID_COUNT {
      forall c: CId
        ensures IsPending(st1, c) <==> IsPending(st, c) || c == st1.history.issued
        ensures Told(st1, c) <==> Told(st, c)
      {
        assert st1.newCons[|st.newCons|].cid == st1.history.issued;
        if IsPending(st, c) {
          var i :| 0 <= i < |st.newCons| && st.newCons[i].cid == c;
          assert st1.newCons[i].cid == c;
        }
      }
      forall i | 0 <= i < |st.newCons|
        ensures st.newCons[i].cid <= st.history.issued
      {
        assert IsPending(st, st.newCons[i].cid);
      }
    }
  }

  /** Taking entry `i` out of the pending connections. */
  lemma {:induction false} PendingWithout(st: State, i: nat, c: CId)
    requires i < |st.newCons| && st.history.issued < CID_COUNT && Staged(st)
    ensures IsPending(st.(newCons := RemoveAt(st.newCons, i)), c) <==> IsPending(st, c) && c != st.newCons[i].cid
  {
    var st1 := st.(newCons := RemoveAt(st.newCons, i));
    if IsPending(st, c) && c != st.newCons[i].cid {
      var k :| 0 <= k < |st.newCons| && st.newCons[k].cid == c;
      assert st1.newCons[if k < i then k else k - 1].cid == c;
    }
  }

  /** A pending connection is settled: registered, or rejected, or dropped. */
  ghost predicate Settled(st: State, i: nat, st1: State) {
    && i < |st.newCons| && st1.newCons == RemoveAt(st.newCons, i)
    && (var c := st.newCons[i].cid;
        && (c in st1.tcp || c in st1.history.dropped) && !(c in st1.tcp && c in st1.history.dropped)
        && (forall d :: d != c ==> (d in st1.tcp <==> d in st.tcp))
        && (forall d :: d != c ==> (d in st1.cidAddr <==> d in st.cidAddr))
        && (forall d :: d != c ==> (d in st1.history.dropped <==> d in st.history.dropped))
        && (c in st1.tcp <==> c in st1.cidAddr))
    && st1.currentCid == st.currentCid && st1.msgBuff == st.msgBuff && st1.disconnected == st.disconnected
    && st1.history == st.history.(dropped := st1.history.dropped)
  }

  lemma {:induction false} SettledStaged(w: Setup, st: State, i: nat, st1: State)
    requires Inv(w, st) && st.history.issued < CID_COUNT && Settled(st, i, st1)
    ensures Staged(st1) && forall c: CId :: Stage(st, c) <= Stage(st1, c)
  {
    var x := st.newCons[i].cid;
    assert IsPending(st, x);
    forall c: CId
      ensures IsPending(st1, c) <==> IsPending(st, c) && c != x
    {
      PendingWithout(st, i, c);
      assert IsPending(st1, c) <==> IsPending(st.(newCons := RemoveAt(st.newCons, i)), c);
    }
    hide Queued, RemoveAt;
  }

  lemma {:induction false} SettledQueued(w: Setup, st: State, i: nat, st1: State)
    requires Inv(w, st) && st.history.issued < CID_COUNT && Settled(st, i, st1)
    ensures Queued(st1)
  {
    var x := st.newCons[i].cid;
    PendingUnknown(w, st, i);
    assert Queued(st);
    hide Inv, Staged, Fit, RemoveAt;
    assert forall c: CId :: Told(st1, c) <==> Told(st, c);
    forall k | 0 <= k < |st.history.queued|
      ensures st.history.queued[k].0 != x
    {
      if Told(st, st.history.queued[k].0) {
        var j :| 0 <= j < |st.history.told| && st.history.told[j].0 == st.history.queued[k].0;
      }
    }
  }

  lemma SettledKeeps(w: Setup, st: State, i: nat, st1: State)
    requires Inv(w, st) && Settled(st, i, st1)
    ensures Inv(w, st1) && Later(st, st1)
  {
    if st.history.issued < CID_COUNT {
      SettledStaged(w, st, i, st1);
      SettledQueued(w, st, i, st1);
    }
    hide Staged, Queued, Stage;
  }

  lemma {:induction false} QueueKeeps(w: Setup, st: State, cid: CId, status: Status)
    requires Inv(w, st) && cid in st.tcp
    ensures Inv(w, Queue(st, cid, status)) && Later(st, Queue(st, cid, status))
  {
    var st1 := Queue(st, cid, status);
    if st.history.issued < CID_COUNT {
      forall c: CId
        ensures IsPending(st1, c) <==> IsPending(st, c)
        ensures Told(st1, c) <==> Told(st, c)
      {
      }
      assert st1.history.queued[Popped(st1)..] == st.history.queued[Popped(st)..] + [(cid, status)];
      forall k | 0 <= k < |st.history.told|
        ensures First(st1.history.queued, st.history.told[k].0, st.history.told[k].1)
      {
        FirstGrows(st.history.queued, [(cid, status)], st.history.told[k].0, st.history.told[k].1);
      }
    }
  }

  lemma {:induction false} PendingUnknown(w: Setup, st: State, i: nat)
    requires Inv(w, st) && st.history.issued < CID_COUNT && i < |st.newCons|
    ensures st.newCons[i].cid !in st.tcp && st.newCons[i].cid !in st.cidAddr && st.newCons[i].cid !in st.history.dropped
  {
    assert IsPending(st, st.newCons[i].cid);
  }

  lemma FirstGrows(queued: seq<(CId, Status)>, more: seq<(CId, Status)>, c: CId, status: Status)
    requires First(queued, c, status)
    ensures First(queued + more, c, status)
  {
    var k :| 0 <= k < |queued| && queued[k] == (c, status) && forall j :: 0 <= j < k ==> queued[j].0 != c;
    assert (queued + more)[k] == (c, status);
  }

  /** An entry of an id that is not live any more is taken out. */
  lemma {:induction false} SkipKeeps(w: Setup, st: State)
    requires Inv(w, st) && st.disconnected != [] && !st.Alive(st.disconnected[0].0)
    ensures var st1 := st.(disconnected := st.disconnected[1..]); Inv(w, st1) && Later(st, st1)
  {
    var st1 := st.(disconnected := st.disconnected[1..]);
    if st.history.issued < CID_COUNT {
      forall c: CId
        ensures IsPending(st1, c) <==> IsPending(st, c)
        ensures Told(st1, c) <==> Told(st, c)
      {
      }
      assert st.history.queued[Popped(st)] == st.disconnected[0];
      assert st1.history.queued[Popped(st1)..] == st.history.queued[Popped(st)..][1..];
    }
  }

  /** The state after the first entry, of a live id, was handled. */
  ghost function TellFirst(st: State): State
    requires Paired(st) && st.disconnected != [] && st.Alive(st.disconnected[0].0)
  {
    var (cid, status) := st.disconnected[0];
    Tell(st.(disconnected := st.disconnected[1..]), cid, status)
  }

  lemma {:induction false} TellStaged(st: State)
    requires Paired(st) && st.disconnected != [] && st.Alive(st.disconnected[0].0)
    requires Staged(st)
    ensures Staged(TellFirst(st)) && forall c: CId :: Stage(st, c) <= Stage(TellFirst(st), c)
  {
    var st1 := TellFirst(st);
    forall c: CId
      ensures IsPending(st1, c) <==> IsPending(st, c)
    {
    }
  }

  lemma {:induction false} ToldMore(st: State, cid: CId, status: Status, st1: State)
    requires st1.history.told == st.history.told + [(cid, status)]
    ensures forall c: CId :: Told(st1, c) <==> Told(st, c) || c == cid
  {
    var told := st.history.told;
    forall c: CId
      ensures Told(st1, c) <==> Told(st, c) || c == cid
    {
      assert st1.history.told[|told|].0 == cid;
      if Told(st, c) {
        var k :| 0 <= k < |told| && told[k].0 == c;
        assert st1.history.told[k].0 == c;
      }
    }
  }

  lemma {:induction false} TellQueued(st: State)
    requires Paired(st) && st.disconnected != [] && st.Alive(st.disconnected[0].0)
    requires Queued(st) && st.disconnected[0].0 !in st.history.dropped
    ensures Queued(TellFirst(st))
  {
    var st1 := TellFirst(st);
    var (cid, status) := st.disconnected[0];
    var queued, told := st.history.queued, st.history.told;
    ToldMore(st, cid, status, st1);
    hide Told;
    assert queued[Popped(st)] == st.disconnected[0];
    assert st1.history.queued[Popped(st1)..] == queued[Popped(st)..][1..];
    assert First(queued, cid, status);
    hide First;
  }

  /** The first entry is of a live id: the hook is told and the id retires. */
  lemma {:induction false} TellKeeps(w: Setup, st: State)
    requires Inv(w, st) && st.disconnected != [] && st.Alive(st.disconnected[0].0)
    ensures Inv(w, TellFirst(st)) && Later(st, TellFirst(st))
  {
    if st.history.issued < CID_COUNT {
      TellStaged(st);
      TellQueued(st);
    }
    hide Staged, Queued, Stage;
  }
}
