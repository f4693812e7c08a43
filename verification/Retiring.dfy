/** When the replayed `Vec::remove` calls hit the connections they are meant for. */
module Retiring {
  import opened Prelude
  import opened Net
  import opened ServerModel

  /** Removing at one index after the other: what comes out, and what is left. */
  function RemoveAll<T>(s: seq<T>, idxs: seq<nat>): Outcome<(seq<T>, seq<T>)>
    decreases |idxs|
  {
    if idxs == [] then Returned(([], s))
    else if idxs[0] >= |s| then Panicked
    else
      var rest :- RemoveAll(RemoveAt(s, idxs[0]), idxs[1..]);
      Returned(([s[idxs[0]]] + rest.0, rest.1))
  }

  /** The entries the indices meant when the list was made. */
  function Meant<T>(s: seq<T>, idxs: seq<nat>): (r: seq<T>)
    requires forall k :: 0 <= k < |idxs| ==> idxs[k] < |s|
    ensures |r| == |idxs| && forall k :: 0 <= k < |idxs| ==> r[k] == s[idxs[k]]
  {
    seq(|idxs|, k requires 0 <= k < |idxs| => s[idxs[k]])
  }

  ghost predicate Descending(idxs: seq<nat>) {
    forall i, j :: 0 <= i < j < |idxs| ==> idxs[i] > idxs[j]
  }

  /** Removing from the back never moves what is still to be removed. */
  lemma {:induction false} DescendingRemoves<T>(s: seq<T>, idxs: seq<nat>)
    requires Descending(idxs) && forall k :: 0 <= k < |idxs| ==> idxs[k] < |s|
    ensures RemoveAll(s, idxs).Returned? && RemoveAll(s, idxs).value.0 == Meant(s, idxs)
    decreases |idxs|
  {
    if idxs != [] {
      var i, tail := idxs[0], idxs[1..];
      var t := RemoveAt(s, i);
      assert forall k :: 0 <= k < |tail| ==> tail[k] == idxs[k + 1] < i && t[tail[k]] == s[tail[k]];
      DescendingRemoves(t, tail);
    }
  }

  /** Where the entries at `at` are after the one at `i` is gone. */
  function Shifted(at: seq<nat>, i: nat): (r: seq<nat>)
    ensures |r| == |at| && forall k :: 0 <= k < |at| ==> r[k] == if at[k] > i then at[k] - 1 else at[k]
  {
    seq(|at|, k requires 0 <= k < |at| => if at[k] > i then at[k] - 1 else at[k])
  }

  lemma ShiftedMeant<T>(s: seq<T>, i: nat, at: seq<nat>)
    requires i < |s| && NoDup(at) && i !in at
    requires forall k :: 0 <= k < |at| ==> at[k] < |s|
    ensures NoDup(Shifted(at, i))
    ensures forall k :: 0 <= k < |at| ==> Shifted(at, i)[k] < |RemoveAt(s, i)|
    ensures Meant(RemoveAt(s, i), Shifted(at, i)) == Meant(s, at)
  {
    var r, t := Shifted(at, i), RemoveAt(s, i);
    forall k | 0 <= k < |at|
      ensures r[k] < |t| && t[r[k]] == s[at[k]]
    {
      assert at[k] != i;
    }
    forall j, k | 0 <= j < k < |at|
      ensures r[j] != r[k]
    {
      assert at[j] != at[k] && at[j] != i && at[k] != i;
    }
  }

  lemma {:induction false} RemoveAllTail<T>(s: seq<T>, idxs: seq<nat>, at: seq<nat>)
    requires idxs != [] && |at| == |idxs| && forall k :: 0 <= k < |at| ==> at[k] < |s|
    requires RemoveAll(s, idxs).Returned? && RemoveAll(s, idxs).value.0 == Meant(s, at)
    ensures idxs[0] < |s| && s[idxs[0]] == s[at[0]]
    ensures var r := RemoveAll(RemoveAt(s, idxs[0]), idxs[1..]); r.Returned? && r.value.0 == Meant(s, at[1..])
  {
    var r := RemoveAll(RemoveAt(s, idxs[0]), idxs[1..]);
    var all := RemoveAll(s, idxs).value.0;
    assert all == [s[idxs[0]]] + r.value.0;
    assert all[0] == Meant(s, at)[0];
    assert r.value.0 == all[1..];
    assert all[1..] == Meant(s, at[1..]);
  }

  /** If every removal takes out the entry that is wanted, and no wanted entry lies
      behind its index, then no entry ever moved: the indices descend. */
  lemma {:induction false} OnlyDescending<T>(s: seq<T>, idxs: seq<nat>, at: seq<nat>)
    requires NoDup(s) && NoDup(at) && |at| == |idxs|
    requires forall k :: 0 <= k < |at| ==> at[k] < |s| && at[k] <= idxs[k]
    requires RemoveAll(s, idxs).Returned? && RemoveAll(s, idxs).value.0 == Meant(s, at)
    ensures at == idxs && Descending(idxs)
    decreases |idxs|
  {
    if idxs != [] {
      var i, later := idxs[0], at[1..];
      RemoveAllTail(s, idxs, at);
      assert at[0] == i;
      NoDupTail(at);
      hide RemoveAll, Meant, NoDup, RemoveAt, Descending;
      ShiftedMeant(s, i, later);
      NoDupRemove(s, i);
      OnlyDescending(RemoveAt(s, i), idxs[1..], Shifted(later, i));
      NothingMoved(idxs, at);
    }
  }

  /** Shifting moves nothing behind its index only if everything lies before `i`. */
  lemma NothingMoved(idxs: seq<nat>, at: seq<nat>)
    requires |at| == |idxs| > 0 && at[0] == idxs[0] && at[0] !in at[1..]
    requires forall k :: 0 <= k < |at| ==> at[k] <= idxs[k]
    requires Shifted(at[1..], at[0]) == idxs[1..] && Descending(idxs[1..])
    ensures at == idxs && Descending(idxs)
  {
    var later := at[1..];
    forall k | 1 <= k < |at|
      ensures at[k] == idxs[k] < idxs[0]
    {
      assert Shifted(later, at[0])[k - 1] == idxs[1..][k - 1];
      assert later[k - 1] == at[k] && later[k - 1] in later;
    }
    forall i, j | 0 <= i < j < |idxs|
      ensures idxs[i] > idxs[j]
    {
      if i > 0 {
        assert idxs[1..][i - 1] > idxs[1..][j - 1];
      }
    }
  }

  ghost predicate Ascending(t: seq<nat>) {
    forall i, j :: 0 <= i < j < |t| ==> t[i] < t[j]
  }

  lemma {:induction false} AscendingAhead(t: seq<nat>, i: nat)
    requires Ascending(t) && i < |t|
    ensures t[i] >= i
  {
    if i > 0 {
      AscendingAhead(t, i - 1);
    }
  }

  /** Removals only make indices point further: what is taken out was at the listed
      index or behind it. */
  lemma {:induction false} RemovedAhead(t: seq<nat>, idxs: seq<nat>)
    requires Ascending(t) && RemoveAll<nat>(t, idxs).Returned?
    ensures var at := RemoveAll<nat>(t, idxs).value.0;
            |at| == |idxs| && forall k :: 0 <= k < |at| ==> at[k] in t && at[k] >= idxs[k]
    decreases |idxs|
  {
    if idxs != [] {
      var i, tail := idxs[0], idxs[1..];
      AscendingAhead(t, i);
      var r := RemoveAt(t, i);
      RemovedAhead(r, tail);
      var rest, at := RemoveAll<nat>(r, tail).value.0, RemoveAll<nat>(t, idxs).value.0;
      assert at == [t[i]] + rest;
      assert forall x :: x in r ==> x in t;
      forall k | 0 <= k < |at|
        ensures at[k] in t && at[k] >= idxs[k]
      {
        if k > 0 {
          assert at[k] == rest[k - 1] && idxs[k] == tail[k - 1];
        }
      }
    }
  }

  /** Replaying on entries is replaying on where they were. */
  lemma {:induction false} RemoveAllMeant<T>(s: seq<T>, t: seq<nat>, idxs: seq<nat>)
    requires forall k :: 0 <= k < |t| ==> t[k] < |s|
    ensures RemoveAll(Meant(s, t), idxs).Returned? <==> RemoveAll<nat>(t, idxs).Returned?
    ensures RemoveAll<nat>(t, idxs).Returned? ==>
              var at := RemoveAll<nat>(t, idxs).value.0;
              (forall k :: 0 <= k < |at| ==> at[k] < |s|) && RemoveAll(Meant(s, t), idxs).value.0 == Meant(s, at)
    decreases |idxs|
  {
    if idxs != [] && idxs[0] < |t| {
      var i, tail := idxs[0], idxs[1..];
      assert Meant(s, RemoveAt(t, i)) == RemoveAt(Meant(s, t), i);
      RemoveAllMeant(s, RemoveAt(t, i), tail);
      var rest := RemoveAll<nat>(RemoveAt(t, i), tail);
      if rest.Returned? {
        var at := [t[i]] + rest.value.0;
        assert Meant(s, at) == [s[t[i]]] + Meant(s, rest.value.0);
      }
    }
  }

  /** The indices themselves. */
  function Everywhere(n: nat): (r: seq<nat>)
    ensures |r| == n && forall i :: 0 <= i < n ==> r[i] == i
  {
    seq(n, i => i)
  }

  /** If the entries taken out are the ones that were meant, in whatever order, the
      indices descend: no index points before what it takes, and equal sets of indices
      have equal sums, so every index points at what it takes. */
  lemma {:induction false} RemovalSet<T>(s: seq<T>, idxs: seq<nat>)
    requires NoDup(s) && NoDup(idxs) && forall k :: 0 <= k < |idxs| ==> idxs[k] < |s|
    requires RemoveAll(s, idxs).Returned? && forall x :: x in RemoveAll(s, idxs).value.0 <==> x in Meant(s, idxs)
    ensures Descending(idxs)
  {
    var at := WhereTaken(s, idxs);
    hide RemoveAll, Descending, Meant, NoDup;
    SameIndices(s, at, idxs);
    SamePlaces(at, idxs);
    OnlyDescending(s, idxs, idxs);
  }

  lemma WhereTaken<T>(s: seq<T>, idxs: seq<nat>) returns (at: seq<nat>)
    requires RemoveAll(s, idxs).Returned?
    ensures |at| == |idxs| && forall k :: 0 <= k < |at| ==> at[k] < |s| && at[k] >= idxs[k]
    ensures RemoveAll(s, idxs).value.0 == Meant(s, at)
  {
    hide RemoveAll;
    var t := Everywhere(|s|);
    assert Meant(s, t) == s;
    RemoveAllMeant(s, t, idxs);
    RemovedAhead(t, idxs);
    at := RemoveAll<nat>(t, idxs).value.0;
  }

  lemma SamePlaces(at: seq<nat>, idxs: seq<nat>)
    requires NoDup(idxs) && |at| == |idxs| && forall k :: 0 <= k < |at| ==> at[k] >= idxs[k]
    requires forall i :: i in at <==> i in idxs
    ensures at == idxs
  {
    hide NoDup;
    SetSize(at);
    SetSize(idxs);
    assert Elements(at) == Elements(idxs);
    SumAnyOrder((x: nat) => x, at, idxs);
    Squeeze(at, idxs);
  }

  lemma SameIndices<T>(s: seq<T>, a: seq<nat>, b: seq<nat>)
    requires NoDup(s) && (forall k :: 0 <= k < |a| ==> a[k] < |s|) && forall k :: 0 <= k < |b| ==> b[k] < |s|
    requires forall x :: x in Meant(s, a) <==> x in Meant(s, b)
    ensures forall i :: i in a <==> i in b
  {
    forall i
      ensures i in a <==> i in b
    {
      IndexMeant(s, a, b, i);
      IndexMeant(s, b, a, i);
    }
  }

  lemma IndexMeant<T>(s: seq<T>, a: seq<nat>, b: seq<nat>, i: nat)
    requires NoDup(s) && (forall k :: 0 <= k < |a| ==> a[k] < |s|) && forall k :: 0 <= k < |b| ==> b[k] < |s|
    requires forall x :: x in Meant(s, a) ==> x in Meant(s, b)
    ensures i in a ==> i in b
  {
    if i in a {
      var k :| 0 <= k < |a| && a[k] == i;
      assert Meant(s, a)[k] == s[i] && s[i] in Meant(s, b);
      var j :| 0 <= j < |b| && Meant(s, b)[j] == s[i];
      assert s[b[j]] == s[i];
      assert b[j] == i;
    }
  }

  /** Replaying a list of indices takes out the entries that were meant, in whatever
      order, exactly when the list is strictly descending; and then in its order. */
  lemma RemovalExactly<T>(s: seq<T>, idxs: seq<nat>)
    requires NoDup(s) && NoDup(idxs)
    requires forall k :: 0 <= k < |idxs| ==> idxs[k] < |s|
    ensures (RemoveAll(s, idxs).Returned? && forall x :: x in RemoveAll(s, idxs).value.0 <==> x in Meant(s, idxs)) <==> Descending(idxs)
    ensures Descending(idxs) ==> RemoveAll(s, idxs).Returned? && RemoveAll(s, idxs).value.0 == Meant(s, idxs)
  {
    if Descending(idxs) {
      DescendingRemoves(s, idxs);
    }
    if RemoveAll(s, idxs).Returned? && forall x :: x in RemoveAll(s, idxs).value.0 <==> x in Meant(s, idxs) {
      RemovalSet(s, idxs);
    }
  }

  // ------------------------------------------------- what is left, and in what order

  /** The entries whose index is not in `gone`, in order. */
  ghost function Others<T>(s: seq<T>, gone: iset<nat>): seq<T> {
    if s == [] then []
    else
      var n := |s| - 1;
      Others(s[..n], gone) + if n in gone then [] else [s[n]]
  }

  lemma {:induction false} OthersRemove<T>(s: seq<T>, i: nat, gone: iset<nat>)
    requires i < |s| && forall g :: g in gone ==> g < i
    ensures Others(RemoveAt(s, i), gone) == Others(s, gone + iset{i})
    decreases |s|
  {
    var n := |s| - 1;
    var t := RemoveAt(s, i);
    if i == n {
      assert t == s[..n];
      OthersBelow(s[..n], i, gone);
      Units(Others(s[..n], gone));
    } else {
      assert t[..n - 1] == RemoveAt(s[..n], i) && t[n - 1] == s[n];
      OthersRemove(s[..n], i, gone);
    }
  }

  lemma {:induction false} OthersBelow<T>(s: seq<T>, i: nat, gone: iset<nat>)
    requires |s| <= i
    ensures Others(s, gone + iset{i}) == Others(s, gone)
    decreases |s|
  {
    if s != [] {
      OthersBelow(s[..|s| - 1], i, gone);
    }
  }

  lemma {:induction false} OthersAll<T>(s: seq<T>)
    ensures Others(s, iset{}) == s
    decreases |s|
  {
    if s != [] {
      OthersAll(s[..|s| - 1]);
      assert s == s[..|s| - 1] + [s[|s| - 1]];
    }
  }

  ghost function AsSet(idxs: seq<nat>): iset<nat> {
    iset i: nat | i in idxs
  }

  lemma {:induction false} DescendingLeaves<T>(s: seq<T>, idxs: seq<nat>)
    requires Descending(idxs) && forall k :: 0 <= k < |idxs| ==> idxs[k] < |s|
    ensures RemoveAll(s, idxs).Returned? && RemoveAll(s, idxs).value.1 == Others(s, AsSet(idxs))
    decreases |idxs|
  {
    AsSetHead(idxs);
    if idxs == [] {
      OthersAll(s);
    } else {
      var i, tail := idxs[0], idxs[1..];
      assert forall k :: 0 <= k < |tail| ==> tail[k] == idxs[k + 1] < i;
      DescendingLeaves(RemoveAt(s, i), tail);
      AsSetHead(tail);
      assert forall g :: g in AsSet(tail) ==> g < i;
      hide AsSet, Others;
      OthersRemove(s, i, AsSet(tail));
    }
  }

  lemma AsSetHead(idxs: seq<nat>)
    ensures idxs == [] ==> AsSet(idxs) == iset{}
    ensures idxs != [] ==> AsSet(idxs) == AsSet(idxs[1..]) + iset{idxs[0]}
    ensures forall g :: g in AsSet(idxs) <==> g in idxs
  {
    if idxs != [] {
      HeadTail(idxs);
    }
  }

  // ------------------------------------------------------------- the server's lists

  function Idxs(plan: seq<Job>): (r: seq<nat>)
    ensures |r| == |plan| && forall k :: 0 <= k < |plan| ==> r[k] == plan[k].idx
  {
    seq(|plan|, k requires 0 <= k < |plan| => plan[k].idx)
  }

  function CidsOf(ps: seq<Pending>): (r: seq<CId>)
    ensures |r| == |ps| && forall k :: 0 <= k < |ps| ==> r[k] == ps[k].cid
  {
    seq(|ps|, k requires 0 <= k < |ps| => ps[k].cid)
  }

  /** The connections the replay really settles, and how. */
  function Served(ps: seq<Pending>, plan: seq<Job>): seq<(CId, Verdict)>
    decreases |plan|
  {
    if plan == [] || plan[0].idx >= |ps| then []
    else [(ps[plan[0].idx].cid, plan[0].verdict)] + Served(RemoveAt(ps, plan[0].idx), plan[1..])
  }

  /** The connections the lists were made for. */
  function Wanted(ps: seq<Pending>, plan: seq<Job>): (r: seq<(CId, Verdict)>)
    requires forall k :: 0 <= k < |plan| ==> plan[k].idx < |ps|
    ensures |r| == |plan| && forall k :: 0 <= k < |plan| ==> r[k] == (ps[plan[k].idx].cid, plan[k].verdict)
  {
    seq(|plan|, k requires 0 <= k < |plan| => (ps[plan[k].idx].cid, plan[k].verdict))
  }

  lemma {:induction false} ServedRemoves(ps: seq<Pending>, plan: seq<Job>)
    ensures |Served(ps, plan)| <= |plan|
    ensures |Served(ps, plan)| == |plan| <==> RemoveAll(CidsOf(ps), Idxs(plan)).Returned?
    ensures |Served(ps, plan)| == |plan| ==>
              && |RemoveAll(CidsOf(ps), Idxs(plan)).value.0| == |plan|
              && forall k :: 0 <= k < |plan| ==> Served(ps, plan)[k] == (RemoveAll(CidsOf(ps), Idxs(plan)).value.0[k], plan[k].verdict)
    decreases |plan|
  {
    if plan != [] {
      assert Idxs(plan)[1..] == Idxs(plan[1..]);
      if plan[0].idx < |ps| {
        assert CidsOf(RemoveAt(ps, plan[0].idx)) == RemoveAt(CidsOf(ps), plan[0].idx);
        ServedRemoves(RemoveAt(ps, plan[0].idx), plan[1..]);
      }
    }
  }

  ghost predicate IsServed(ps: seq<Pending>, plan: seq<Job>, c: CId) {
    exists j :: 0 <= j < |Served(ps, plan)| && Served(ps, plan)[j].0 == c
  }

  /** The connections the replay really takes. */
  function Taken(ps: seq<Pending>, plan: seq<Job>): (r: seq<CId>)
    ensures |r| == |Served(ps, plan)| && forall j :: 0 <= j < |r| ==> r[j] == Served(ps, plan)[j].0
  {
    seq(|Served(ps, plan)|, j requires 0 <= j < |Served(ps, plan)| => Served(ps, plan)[j].0)
  }

  lemma {:induction false} MeantTaken(ps: seq<Pending>, plan: seq<Job>)
    requires forall k :: 0 <= k < |plan| ==> plan[k].idx < |ps|
    requires forall k :: 0 <= k < |plan| ==> IsServed(ps, plan, ps[plan[k].idx].cid)
    ensures |Taken(ps, plan)| <= |Meant(CidsOf(ps), Idxs(plan))|
    ensures forall x :: x in Meant(CidsOf(ps), Idxs(plan)) ==> x in Taken(ps, plan)
  {
    ServedRemoves(ps, plan);
    hide Served, RemoveAll;
    var meant, taken := Meant(CidsOf(ps), Idxs(plan)), Taken(ps, plan);
    forall x | x in meant
      ensures x in taken
    {
      var k :| 0 <= k < |meant| && meant[k] == x;
      assert IsServed(ps, plan, ps[plan[k].idx].cid);
      var j :| 0 <= j < |Served(ps, plan)| && Served(ps, plan)[j].0 == ps[plan[k].idx].cid;
      assert taken[j] == x;
    }
  }

  /** A sequence without repetition has no room in a shorter one, and fills one as long. */
  lemma {:induction false} SameBySize<T>(a: seq<T>, b: seq<T>)
    requires NoDup(a) && |b| <= |a| && forall x :: x in a ==> x in b
    ensures |b| == |a| && forall x :: x in a <==> x in b
  {
    SetSize(a);
    SetSize(b);
    hide NoDup;
    assert Elements(a) <= Elements(b);
    SubsetSize(Elements(a), Elements(b));
    forall x
      ensures x in a <==> x in b
    {
      assert x in Elements(a) <==> x in Elements(b);
    }
  }

  lemma {:induction false} TakenRemoved(ps: seq<Pending>, plan: seq<Job>)
    requires |Taken(ps, plan)| == |plan|
    ensures RemoveAll(CidsOf(ps), Idxs(plan)).Returned? && RemoveAll(CidsOf(ps), Idxs(plan)).value.0 == Taken(ps, plan)
  {
    ServedRemoves(ps, plan);
    hide Served, RemoveAll;
  }

  lemma {:induction false} IdxsInRange(ps: seq<Pending>, plan: seq<Job>)
    requires forall k :: 0 <= k < |plan| ==> plan[k].idx < |ps|
    ensures forall k :: 0 <= k < |Idxs(plan)| ==> Idxs(plan)[k] < |CidsOf(ps)|
  {
  }

  /** If every connection the lists were made for is settled in some way, the lists descend. */
  lemma {:induction false} AllMeantServed(ps: seq<Pending>, plan: seq<Job>)
    requires NoDup(CidsOf(ps)) && NoDup(Idxs(plan))
    requires forall k :: 0 <= k < |plan| ==> plan[k].idx < |ps|
    requires forall k :: 0 <= k < |plan| ==> IsServed(ps, plan, ps[plan[k].idx].cid)
    ensures Descending(Idxs(plan))
  {
    hide *;
    IdxsInRange(ps, plan);
    MeantNoDup(CidsOf(ps), Idxs(plan));
    MeantTaken(ps, plan);
    SameBySize(Meant(CidsOf(ps), Idxs(plan)), Taken(ps, plan));
    TakenRemoved(ps, plan);
    RemovalSet(CidsOf(ps), Idxs(plan));
  }

  lemma MeantNoDup<T>(s: seq<T>, idxs: seq<nat>)
    requires NoDup(s) && NoDup(idxs) && forall k :: 0 <= k < |idxs| ==> idxs[k] < |s|
    ensures NoDup(Meant(s, idxs))
  {
    forall i, j | 0 <= i < j < |idxs|
      ensures Meant(s, idxs)[i] != Meant(s, idxs)[j]
    {
      assert idxs[i] != idxs[j];
    }
  }

  lemma SubsetSize<T>(a: set<T>, b: set<T>)
    requires a <= b
    ensures |a| <= |b| && (|a| == |b| ==> a == b)
  {
    assert b == a + (b - a);
    assert |b| == |a| + |b - a|;
  }

  /** Every connection gets the answer the hook gave for it, in whatever order, exactly
      when the concatenated lists descend; and then nothing else happens. */
  lemma {:induction false} ServedExactly(ps: seq<Pending>, plan: seq<Job>)
    requires NoDup(CidsOf(ps)) && NoDup(Idxs(plan))
    requires forall k :: 0 <= k < |plan| ==> plan[k].idx < |ps|
    ensures (forall x :: x in Wanted(ps, plan) ==> x in Served(ps, plan)) <==> Descending(Idxs(plan))
    ensures Descending(Idxs(plan)) ==> Served(ps, plan) == Wanted(ps, plan)
  {
    var cids, idxs := CidsOf(ps), Idxs(plan);
    ServedRemoves(ps, plan);
    var served, wanted, meant := Served(ps, plan), Wanted(ps, plan), Meant(cids, idxs);
    if Descending(idxs) {
      RemovalExactly(cids, idxs);
      assert forall k :: 0 <= k < |plan| ==> served[k] == (meant[k], plan[k].verdict) == wanted[k];
      assert served == wanted;
    }
    hide Served, RemoveAll, Descending, NoDup;
    if forall x :: x in wanted ==> x in served {
      forall k | 0 <= k < |plan|
        ensures IsServed(ps, plan, ps[plan[k].idx].cid)
      {
        assert wanted[k] in wanted && wanted[k] in served;
      }
      AllMeantServed(ps, plan);
    }
  }

  // ------------------------------------------------------- from verdicts to indices

  /** The order of the three lists. */
  function Rank(v: Verdict): nat {
    match v
    case Accepted(_) => 0
    case Rejected(_) => 1
    case Dead => 2
    case Waiting => 3
  }

  /** At most one connection died, one was rejected and one accepted, in this order
      along the list of pending connections. */
  ghost predicate Falling(vs: seq<Verdict>) {
    forall i, j :: 0 <= i < j < |vs| && vs[i] != Waiting && vs[j] != Waiting ==> Rank(vs[i]) > Rank(vs[j])
  }

  ghost predicate Before(a: Job, b: Job) {
    Rank(a.verdict) < Rank(b.verdict) || (Rank(a.verdict) == Rank(b.verdict) && a.idx < b.idx)
  }

  ghost predicate Ordered(plan: seq<Job>) {
    forall i, j :: 0 <= i < j < |plan| ==> Before(plan[i], plan[j])
  }

  lemma PickLast(vs: seq<Verdict>, k: Kind)
    requires vs != []
    ensures var n := |vs| - 1;
            Pick(vs, k) == Pick(vs[..n], k) + if Is(vs[n], k) then [Job(n, vs[n])] else []
  {
  }

  /** A list of one kind holds that verdict only, */
  lemma {:induction false} PickFrom(vs: seq<Verdict>, k: Kind, j: Job)
    requires j in Pick(vs, k)
    ensures j.idx < |vs| && j.verdict == vs[j.idx] && Is(j.verdict, k)
    decreases |vs|
  {
    var n := |vs| - 1;
    PickLast(vs, k);
    hide Pick;
    if j in Pick(vs[..n], k) {
      PickFrom(vs[..n], k, j);
    }
  }

  /** every index with it, */
  lemma {:induction false} PickHas(vs: seq<Verdict>, k: Kind, i: nat)
    requires i < |vs| && Is(vs[i], k)
    ensures Job(i, vs[i]) in Pick(vs, k)
    decreases |vs|
  {
    var n := |vs| - 1;
    PickLast(vs, k);
    hide Pick;
    if i < n {
      PickHas(vs[..n], k, i);
    } else {
      assert [Job(n, vs[n])][0] == Job(i, vs[i]);
    }
  }

  /** and they ascend. */
  lemma {:induction false} PickOrdered(vs: seq<Verdict>, k: Kind)
    ensures Ordered(Pick(vs, k))
    decreases |vs|
  {
    if vs != [] {
      var n := |vs| - 1;
      var front, all := Pick(vs[..n], k), Pick(vs, k);
      PickOrdered(vs[..n], k);
      PickLast(vs, k);
      hide Pick;
      forall i, j | 0 <= i < j < |all|
        ensures Before(all[i], all[j])
      {
        if j < |front| {
          assert all[i] == front[i] && all[j] == front[j];
        } else {
          assert all[i] == front[i] && front[i] in front;
          PickFrom(vs[..n], k, front[i]);
          SameKind(front[i].verdict, vs[n], k);
        }
      }
    }
  }

  lemma SameKind(v: Verdict, u: Verdict, k: Kind)
    requires Is(v, k) && Is(u, k)
    ensures Rank(v) == Rank(u)
  {
  }

  lemma PickIs(vs: seq<Verdict>, k: Kind)
    ensures Ordered(Pick(vs, k))
    ensures forall j :: j in Pick(vs, k) <==> j.idx < |vs| && j.verdict == vs[j.idx] && Is(j.verdict, k)
  {
    PickOrdered(vs, k);
    hide Pick, Ordered;
    forall j: Job
      ensures j in Pick(vs, k) <==> j.idx < |vs| && j.verdict == vs[j.idx] && Is(j.verdict, k)
    {
      if j in Pick(vs, k) {
        PickFrom(vs, k, j);
      }
      if j.idx < |vs| && j.verdict == vs[j.idx] && Is(j.verdict, k) {
        PickHas(vs, k, j.idx);
        assert j == Job(j.idx, vs[j.idx]);
      }
    }
  }

  /** All lists together: every verdict but `Waiting`, first by list, then by index. */
  lemma PlanIs(vs: seq<Verdict>)
    ensures Ordered(Plan(vs))
    ensures forall j :: j in Plan(vs) <==> j.idx < |vs| && j.verdict == vs[j.idx] && j.verdict != Waiting
  {
    PickIs(vs, KAccepted);
    PickIs(vs, KRejected);
    PickIs(vs, KDead);
    var a, r, d := Pick(vs, KAccepted), Pick(vs, KRejected), Pick(vs, KDead);
    OrderedConcat(a, r, 0, 1);
    forall i | 0 <= i < |a + r|
      ensures Rank((a + r)[i].verdict) <= 1
    {
      assert (a + r)[i] in a || (a + r)[i] in r;
    }
    OrderedConcat(a + r, d, 1, 2);
  }

  lemma {:induction false} OrderedConcat(a: seq<Job>, b: seq<Job>, ra: nat, rb: nat)
    requires Ordered(a) && Ordered(b) && ra < rb
    requires forall j :: j in a ==> Rank(j.verdict) <= ra
    requires forall j :: j in b ==> Rank(j.verdict) >= rb
    ensures Ordered(a + b)
  {
    var all := a + b;
    forall i, j | 0 <= i < j < |all|
      ensures Before(all[i], all[j])
    {
      if i < |a| <= j {
        assert all[i] in a && all[j] in b;
      }
    }
  }

  lemma {:induction false} OrderedNoDup(plan: seq<Job>, vs: seq<Verdict>)
    requires Ordered(plan) && forall j :: j in plan ==> j.idx < |vs| && j.verdict == vs[j.idx]
    ensures NoDup(Idxs(plan))
    ensures forall k :: 0 <= k < |plan| ==> plan[k].idx < |vs|
  {
    forall k | 0 <= k < |plan|
      ensures plan[k].idx < |vs| && plan[k].verdict == vs[plan[k].idx]
    {
      assert plan[k] in plan;
    }
    forall i, j | 0 <= i < j < |plan|
      ensures Idxs(plan)[i] != Idxs(plan)[j]
    {
      assert Before(plan[i], plan[j]);
    }
  }

  lemma DescendingOrder(plan: seq<Job>, a: nat, b: nat)
    requires Descending(Idxs(plan)) && a < |plan| && b < |plan|
    ensures a < b ==> plan[a].idx > plan[b].idx
  {
    if a < b {
      assert Idxs(plan)[a] > Idxs(plan)[b];
    }
  }

  /** The lists descend exactly when, along the pending connections, a dead one comes
      before a rejected one and that before an accepted one, with no two of a kind. */
  lemma PlanDescending(vs: seq<Verdict>)
    ensures Descending(Idxs(Plan(vs))) <==> Falling(vs)
  {
    var plan := Plan(vs);
    PlanIs(vs);
    OrderedNoDup(plan, vs);
    if Falling(vs) {
      forall i, j | 0 <= i < j < |plan|
        ensures plan[i].idx > plan[j].idx
      {
        assert plan[i] in plan && plan[j] in plan && Before(plan[i], plan[j]);
        assert Idxs(plan)[i] != Idxs(plan)[j];
      }
    }
    if Descending(Idxs(plan)) {
      forall i, j | 0 <= i < j < |vs| && vs[i] != Waiting && vs[j] != Waiting
        ensures Rank(vs[i]) > Rank(vs[j])
      {
        assert Job(i, vs[i]) in plan && Job(j, vs[j]) in plan;
        var a :| 0 <= a < |plan| && plan[a] == Job(i, vs[i]);
        var b :| 0 <= b < |plan| && plan[b] == Job(j, vs[j]);
        DescendingOrder(plan, a, b);
        assert Before(plan[b], plan[a]);
      }
    }
  }

  lemma PlanInRange(vs: seq<Verdict>)
    ensures NoDup(Idxs(Plan(vs))) && forall k :: 0 <= k < |Plan(vs)| ==> Plan(vs)[k].idx < |vs|
  {
    PlanIs(vs);
    OrderedNoDup(Plan(vs), vs);
  }

  /** Who is to be settled, and how, by the verdicts of one pass. */
  ghost function Intended(ps: seq<Pending>, vs: seq<Verdict>): seq<(CId, Verdict)>
    requires |vs| == |ps|
  {
    PlanInRange(vs);
    Wanted(ps, Plan(vs))
  }

  /** `handle_new_con` and `handle_new_cons` settle the right connections, in whatever
      order, exactly when the verdicts of the pass fall, and then no others. */
  lemma SettlesExactly(ps: seq<Pending>, vs: seq<Verdict>)
    requires NoDup(CidsOf(ps)) && |vs| == |ps|
    ensures (forall x :: x in Intended(ps, vs) ==> x in Served(ps, Plan(vs))) <==> Falling(vs)
    ensures Falling(vs) ==> Served(ps, Plan(vs)) == Intended(ps, vs)
  {
    hide Served, Wanted, Plan, Falling, Descending, NoDup, CidsOf, Idxs;
    PlanInRange(vs);
    ServedExactly(ps, Plan(vs));
    PlanDescending(vs);
  }
}
