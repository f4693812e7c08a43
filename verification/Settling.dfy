/** What one pass over the pending connections does to them. */
module Settling {
  import opened Prelude
  import opened Net
  import opened MessageTable
  import opened Inbound
  import opened ServerModel
  import opened Retiring
  import Runs

  // ------------------------------------------------------------- when it panics

  /** Replaying removals panics exactly when some index is past what is left by then. */
  lemma {:induction false} RemovalPanics<T>(s: seq<T>, idxs: seq<nat>)
    ensures RemoveAll(s, idxs).Returned? <==> forall k :: 0 <= k < |idxs| ==> idxs[k] + k < |s|
    ensures RemoveAll(s, idxs).Returned? ==> |RemoveAll(s, idxs).value.1| == |s| - |idxs|
    decreases |idxs|
  {
    if idxs != [] && idxs[0] < |s| {
      var tail := idxs[1..];
      RemovalPanics(RemoveAt(s, idxs[0]), tail);
      assert forall k :: 0 <= k < |tail| ==> tail[k] == idxs[k + 1];
      if forall k :: 0 <= k < |tail| ==> tail[k] + k < |s| - 1 {
        assert forall k :: 0 < k < |idxs| ==> idxs[k] == tail[k - 1];
      }
    }
  }

  /** A response `RejectIncoming` can serialize without panicking. */
  predicate Answers(w: Setup, v: Verdict)
    requires w.Sound()
  {
    v.Rejected? ==> v.resp.tid == w.parts.ser[RESPONSE_TYPE_MID].tid
  }

  ghost predicate SettledAs(served: seq<(CId, Verdict)>, c: CId, accepted: bool) {
    exists i :: 0 <= i < |served| && served[i].0 == c && served[i].1.Accepted? == accepted
  }

  /** Apart from these fields nothing changes when connections are settled. */
  ghost predicate OnlySettled(st: State, st1: State) {
    st1 == st.(newCons := st1.newCons, tcp := st1.tcp, udp := st1.udp, cidAddr := st1.cidAddr, addrCid := st1.addrCid,
               history := st.history.(dropped := st1.history.dropped))
  }

  lemma SettleEffect(w: Setup, st: State, p: Pending, v: Verdict)
    requires w.Sound() && v != Waiting
    ensures var o := Settle(w, st, p, v);
            && (o.Returned? <==> Answers(w, v))
            && (o.Returned? ==>
                  && OnlySettled(st, o.value) && o.value.newCons == st.newCons
                  && (forall c :: c in o.value.tcp <==> c in st.tcp || (c == p.cid && v.Accepted?))
                  && (forall c :: c in o.value.history.dropped <==> c in st.history.dropped || (c == p.cid && !v.Accepted?)))
  {
    if v.Accepted? {
      Runs.SendToSame(w, AddTcpCon(st, p.cid, p.sock), p.cid, v.resp);
      hide SendTo;
    }
  }

  ghost predicate Acts(plan: seq<Job>) {
    forall j :: j in plan ==> j.verdict != Waiting
  }

  ghost predicate AllAnswer(w: Setup, plan: seq<Job>)
    requires w.Sound()
  {
    forall j :: j in plan ==> Answers(w, j.verdict)
  }

  /** What the replay did when it returns, in terms of the connections it really took. */
  ghost predicate Carried(w: Setup, st: State, plan: seq<Job>, st1: State)
    requires w.Sound()
  {
    var gone, served := RemoveAll(st.newCons, Idxs(plan)), Served(st.newCons, plan);
    && OnlySettled(st, st1)
    && gone.Returned? && st1.newCons == gone.value.1
    && (forall c :: c in st1.tcp <==> c in st.tcp || SettledAs(served, c, true))
    && (forall c :: c in st1.history.dropped <==> c in st.history.dropped || SettledAs(served, c, false))
  }

  lemma EndsFirst(head: (CId, Verdict), tail: seq<(CId, Verdict)>, c: CId, accepted: bool)
    ensures SettledAs([head] + tail, c, accepted) <==> (head.0 == c && head.1.Accepted? == accepted) || SettledAs(tail, c, accepted)
  {
    var all := [head] + tail;
    if head.0 == c && head.1.Accepted? == accepted {
      assert all[0] == head;
    }
    if SettledAs(tail, c, accepted) {
      var i :| 0 <= i < |tail| && tail[i].0 == c && tail[i].1.Accepted? == accepted;
      assert all[i + 1] == tail[i];
    }
    if SettledAs(all, c, accepted) {
      var i :| 0 <= i < |all| && all[i].0 == c && all[i].1.Accepted? == accepted;
      if i > 0 {
        assert tail[i - 1] == all[i];
      }
    }
  }

  lemma {:induction false} CarriedFirst(w: Setup, st: State, plan: seq<Job>, st1: State, st2: State)
    requires w.Sound() && plan != [] && plan[0].idx < |st.newCons|
    requires var st0 := st.(newCons := RemoveAt(st.newCons, plan[0].idx));
             var (p, v) := (st.newCons[plan[0].idx], plan[0].verdict);
             && OnlySettled(st0, st1) && st1.newCons == st0.newCons
             && (forall c :: c in st1.tcp <==> c in st.tcp || (c == p.cid && v.Accepted?))
             && (forall c :: c in st1.history.dropped <==> c in st.history.dropped || (c == p.cid && !v.Accepted?))
    requires Carried(w, st1, plan[1..], st2)
    ensures Carried(w, st, plan, st2)
  {
    var served, rest := Served(st.newCons, plan), Served(st1.newCons, plan[1..]);
    var head := (st.newCons[plan[0].idx].cid, plan[0].verdict);
    assert served == [head] + rest;
    assert Idxs(plan)[1..] == Idxs(plan[1..]);
    hide Served, Idxs, SettledAs, RemoveAt;
    forall c: CId
      ensures c in st2.tcp <==> c in st.tcp || SettledAs(served, c, true)
      ensures c in st2.history.dropped <==> c in st.history.dropped || SettledAs(served, c, false)
    {
      EndsFirst(head, rest, c, true);
      EndsFirst(head, rest, c, false);
    }
  }

  /** The replay returns exactly when no index is out of bounds and every rejection is
      answered with the table's response type. */
  lemma {:induction false} CarryServes(w: Setup, st: State, plan: seq<Job>)
    requires w.Sound() && Acts(plan)
    ensures Carry(w, st, plan).Returned? <==> RemoveAll(st.newCons, Idxs(plan)).Returned? && AllAnswer(w, plan)
    ensures Carry(w, st, plan).Returned? ==> Carried(w, st, plan, Carry(w, st, plan).value)
    decreases |plan|
  {
    hide Setup.Sound, Settle, Answers;
    if plan == [] {
      assert Idxs(plan) == [];
    } else {
      var i, v := plan[0].idx, plan[0].verdict;
      HeadTail(plan);
      assert plan[0] in plan && forall j :: j in plan <==> j == plan[0] || j in plan[1..];
      assert Idxs(plan)[1..] == Idxs(plan[1..]);
      if i < |st.newCons| {
        var st0 := st.(newCons := RemoveAt(st.newCons, i));
        SettleEffect(w, st0, st.newCons[i], v);
        var o := Settle(w, st0, st.newCons[i], v);
        if o.Returned? {
          CarryServes(w, o.value, plan[1..]);
          hide Carried;
          if Carry(w, o.value, plan[1..]).Returned? {
            CarriedFirst(w, st, plan, o.value, Carry(w, o.value, plan[1..]).value);
          }
        }
      }
    }
  }

  // ------------------------------------------------------------- a whole pass

  /** Where the verdict on `p` sends it. */
  ghost predicate Fate(st1: State, p: Pending, v: Verdict) {
    && (p.cid in st1.tcp <==> v.Accepted?)
    && (p.cid in st1.history.dropped <==> v.Rejected? || v.Dead?)
  }

  ghost predicate AllFresh(st: State, ps: seq<Pending>) {
    NoDup(CidsOf(ps)) && forall i :: 0 <= i < |ps| ==> ps[i].cid !in st.tcp && ps[i].cid !in st.history.dropped
  }

  /** The indices that are not waiting. */
  ghost function Decided(vs: seq<Verdict>): iset<nat> {
    iset i: nat | i < |vs| && vs[i] != Waiting
  }

  lemma PlanDecides(vs: seq<Verdict>)
    ensures AsSet(Idxs(Plan(vs))) == Decided(vs)
  {
    var plan := Plan(vs);
    PlanIs(vs);
    forall i: nat
      ensures i in Idxs(plan) <==> i < |vs| && vs[i] != Waiting
    {
      if i in Idxs(plan) {
        var k :| 0 <= k < |plan| && Idxs(plan)[k] == i;
        assert plan[k] in plan;
      }
      if i < |vs| && vs[i] != Waiting {
        assert Job(i, vs[i]) in plan;
        var k :| 0 <= k < |plan| && plan[k] == Job(i, vs[i]);
        assert Idxs(plan)[k] == i;
      }
    }
  }

  /** With falling verdicts a pass does what it is meant to: every accepted connection
      is registered, every rejected or dead one is dropped, and the waiting ones stay
      in their order. */
  lemma {:induction false} FallingSettles(w: Setup, st: State, vs: seq<Verdict>)
    requires w.Sound() && |vs| == |st.newCons| && Falling(vs)
    requires AllFresh(st, st.newCons)
    requires forall i :: 0 <= i < |vs| ==> Answers(w, vs[i])
    ensures var o := Carry(w, st, Plan(vs));
            && o.Returned? && o.value.newCons == Others(st.newCons, Decided(vs))
            && forall i :: 0 <= i < |vs| ==> Fate(o.value, st.newCons[i], vs[i])
  {
    var ps, plan := st.newCons, Plan(vs);
    PlanIs(vs);
    PlanInRange(vs);
    PlanDescending(vs);
    PlanDecides(vs);
    DescendingLeaves(ps, Idxs(plan));
    CarryServes(w, st, plan);
    var st1 := Carry(w, st, plan).value;
    SettlesExactly(ps, vs);
    var served := Served(ps, plan);
    hide Served, Carry, Plan, RemoveAll, Others, Decided, Falling, Setup.Sound;
    forall i | 0 <= i < |vs|
      ensures Fate(st1, ps[i], vs[i])
    {
      FateOf(ps, vs, served, i);
    }
  }

  lemma FateOf(ps: seq<Pending>, vs: seq<Verdict>, served: seq<(CId, Verdict)>, i: nat)
    requires i < |vs| == |ps| && NoDup(CidsOf(ps)) && served == Intended(ps, vs)
    ensures SettledAs(served, ps[i].cid, true) <==> vs[i].Accepted?
    ensures SettledAs(served, ps[i].cid, false) <==> vs[i].Rejected? || vs[i].Dead?
  {
    var plan := Plan(vs);
    PlanIs(vs);
    PlanInRange(vs);
    hide Plan;
    forall accepted: bool
      ensures SettledAs(served, ps[i].cid, accepted) <==> vs[i] != Waiting && vs[i].Accepted? == accepted
    {
      if vs[i] != Waiting && vs[i].Accepted? == accepted {
        assert Job(i, vs[i]) in plan;
        var k :| 0 <= k < |plan| && plan[k] == Job(i, vs[i]);
        assert served[k] == (ps[i].cid, vs[i]);
      }
      if SettledAs(served, ps[i].cid, accepted) {
        var k :| 0 <= k < |served| && served[k].0 == ps[i].cid && served[k].1.Accepted? == accepted;
        assert plan[k] in plan && served[k] == (ps[plan[k].idx].cid, plan[k].verdict);
        assert CidsOf(ps)[i] == CidsOf(ps)[plan[k].idx];
        assert plan[k].idx == i;
      }
    }
  }

  /** What a decided connection is owed. */
  lemma {:induction false} FateServes(w: Setup, st: State, vs: seq<Verdict>, st1: State, i: nat)
    requires w.Sound() && |vs| == |st.newCons| && i < |vs| && vs[i] != Waiting && AllFresh(st, st.newCons)
    requires Carried(w, st, Plan(vs), st1) && Fate(st1, st.newCons[i], vs[i])
    ensures IsServed(st.newCons, Plan(vs), st.newCons[i].cid)
  {
    var c := st.newCons[i].cid;
    hide Served, Plan, RemoveAll, Setup.Sound, NoDup;
    assert SettledAs(Served(st.newCons, Plan(vs)), c, vs[i].Accepted?);
  }

  /** The replay does right by every pending connection, in whatever order it takes
      them, exactly when the verdicts fall. */
  lemma {:induction false} CarryExactly(w: Setup, st: State, vs: seq<Verdict>)
    requires w.Sound() && |vs| == |st.newCons| && AllFresh(st, st.newCons)
    requires forall i :: 0 <= i < |vs| ==> Answers(w, vs[i])
    ensures var o := Carry(w, st, Plan(vs));
            (o.Returned? && forall i :: 0 <= i < |vs| ==> Fate(o.value, st.newCons[i], vs[i])) <==> Falling(vs)
  {
    hide Carry, Plan, Falling, Fate, Carried, Setup.Sound, Answers;
    var ps, plan := st.newCons, Plan(vs);
    var o := Carry(w, st, plan);
    if Falling(vs) {
      FallingSettles(w, st, vs);
    }
    if o.Returned? && forall i :: 0 <= i < |vs| ==> Fate(o.value, ps[i], vs[i]) {
      PlanActs(vs);
      CarryServes(w, st, plan);
      FatesFall(w, st, vs, o.value);
    }
  }

  lemma PlanActs(vs: seq<Verdict>)
    ensures Acts(Plan(vs))
  {
    PlanIs(vs);
  }

  lemma {:induction false} FatesFall(w: Setup, st: State, vs: seq<Verdict>, st1: State)
    requires w.Sound() && |vs| == |st.newCons| && AllFresh(st, st.newCons) && Carried(w, st, Plan(vs), st1)
    requires forall i :: 0 <= i < |vs| ==> Fate(st1, st.newCons[i], vs[i])
    ensures Falling(vs)
  {
    var ps, plan := st.newCons, Plan(vs);
    PlanIs(vs);
    PlanInRange(vs);
    hide Served, IsServed, Plan, Fate, Carried, Falling, Setup.Sound, Descending, Ordered, NoDup;
    forall k | 0 <= k < |plan|
      ensures IsServed(ps, plan, ps[plan[k].idx].cid)
    {
      assert plan[k] in plan;
      FateServes(w, st, vs, st1, plan[k].idx);
    }
    AllMeantServed(ps, plan);
    PlanDescending(vs);
  }

  /** Accepting every one of two or more pending connections in one pass panics. */
  lemma {:induction false} AcceptingAllPanics(w: Setup, st: State, vs: seq<Verdict>)
    requires w.Sound() && |vs| == |st.newCons| >= 2
    requires forall i :: 0 <= i < |vs| ==> vs[i].Accepted?
    ensures Carry(w, st, Plan(vs)).Panicked?
  {
    var plan := Plan(vs);
    var idxs := Idxs(plan);
    PlanIs(vs);
    PlanInRange(vs);
    AcceptedAll(vs);
    RemovalPanics(st.newCons, idxs);
    CarryServes(w, st, plan);
    var k := |vs| - 1;
    assert idxs[k] + k >= |st.newCons|;
  }

  lemma AcceptedAll(vs: seq<Verdict>)
    requires forall i :: 0 <= i < |vs| ==> vs[i].Accepted?
    ensures |Plan(vs)| == |vs| && forall i :: 0 <= i < |vs| ==> Plan(vs)[i] == Job(i, vs[i])
  {
    PickAll(vs);
    Units(Pick(vs, KAccepted));
  }

  lemma {:induction false} PickAll(vs: seq<Verdict>)
    requires forall i :: 0 <= i < |vs| ==> vs[i].Accepted?
    ensures |Pick(vs, KAccepted)| == |vs| && forall i :: 0 <= i < |vs| ==> Pick(vs, KAccepted)[i] == Job(i, vs[i])
    ensures Pick(vs, KRejected) == [] && Pick(vs, KDead) == []
    decreases |vs|
  {
    if vs != [] {
      PickAll(vs[..|vs| - 1]);
    }
  }
}
