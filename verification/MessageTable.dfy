/** Registration of message types and the tables built from it (`src/message_table.rs`). */
module MessageTable {
  import opened Prelude
  import opened Net

  const CONNECTION_TYPE_MID: MId := 0
  const RESPONSE_TYPE_MID: MId := 1
  const DISCONNECT_TYPE_MID: MId := 2

  /** The two closures a registration makes; each is fixed by the type it is for. */
  datatype SerFn = SerOf(tid: TypeId)
  datatype DeserFn = DeserOf(tid: TypeId)

  datatype MsgRegError = TypeAlreadyRegistered | NonUniqueIdentifier
  datatype Reg<+T> = Done(value: T) | Refused(error: MsgRegError)

  datatype Entry = Entry(tid: TypeId, transport: Transport, ser: SerFn, deser: DeserFn)
  datatype SortedEntry = SortedEntry(id: string, entry: Entry)

  function EntryFor(tid: TypeId, transport: Transport): Entry {
    Entry(tid, transport, SerOf(tid), DeserOf(tid))
  }

  datatype MsgTableParts = MsgTableParts(
    tidMap: map<TypeId, MId>,
    transports: seq<Transport>,
    ser: seq<SerFn>,
    deser: seq<DeserFn>)
  {
    function MidCount(): nat {
      |transports|
    }

    /** The source compares with `<=`, so the count itself passes. */
    predicate ValidMid(mid: MId) {
      mid <= MidCount()
    }

    predicate ValidTid(tid: TypeId) {
      tid in tidMap
    }

    /** What holds of any parts `build` yields. */
    ghost predicate Shaped() {
      && |ser| == |deser| == MidCount() >= 3 && |tidMap| <= MidCount()
      && (forall t :: t in tidMap ==> tidMap[t] < MidCount() && deser[tidMap[t]] == DeserOf(t) && ser[tidMap[t]] == SerOf(t))
      && transports[CONNECTION_TYPE_MID] == transports[RESPONSE_TYPE_MID] == transports[DISCONNECT_TYPE_MID] == TCP
    }

    /** Ids and types correspond: what the server's buffers, one for each type, need. */
    ghost predicate Coherent() {
      && Shaped() && |tidMap| == MidCount()
      && (forall mid :: 0 <= mid < MidCount() ==> deser[mid].tid in tidMap && tidMap[deser[mid].tid] == mid)
    }
  }

  // ---------------------------------------------------------------- building

  /** Inserting (type, index) pairs in order: a later pair replaces an earlier one. */
  function TidMapOf(chain: seq<Entry>): map<TypeId, MId> {
    if chain == [] then map[]
    else TidMapOf(chain[..|chain| - 1])[chain[|chain| - 1].tid := |chain| - 1]
  }

  /** A type is mapped to the last position it is registered at. */
  lemma {:induction false} TidMapAt(chain: seq<Entry>, t: TypeId)
    ensures t in TidMapOf(chain) <==> TidIn(chain, t)
    ensures t in TidMapOf(chain) ==>
              var at := TidMapOf(chain)[t];
              at < |chain| && chain[at].tid == t && forall i :: at < i < |chain| ==> chain[i].tid != t
  {
    if chain != [] {
      var n := |chain| - 1;
      TidMapAt(chain[..n], t);
      assert chain[n] in chain;
      assert forall i :: 0 <= i < n ==> chain[..n][i] == chain[i];
      assert forall e :: e in chain <==> e in chain[..n] || e == chain[n];
    }
  }

  ghost function PartsOf(chain: seq<Entry>): MsgTableParts {
    MsgTableParts(
      TidMapOf(chain),
      seq(|chain|, i requires 0 <= i < |chain| => chain[i].transport),
      seq(|chain|, i requires 0 <= i < |chain| => chain[i].ser),
      seq(|chain|, i requires 0 <= i < |chain| => chain[i].deser))
  }

  function Reserved(c: TypeId, r: TypeId, d: TypeId): seq<Entry> {
    [EntryFor(c, TCP), EntryFor(r, TCP), EntryFor(d, TCP)]
  }

  predicate TidIn(table: seq<Entry>, tid: TypeId) {
    exists e :: e in table && e.tid == tid
  }

  ghost predicate DistinctTypes(chain: seq<Entry>) {
    forall i, j :: 0 <= i < j < |chain| ==> chain[i].tid != chain[j].tid
  }

  /** Every entry has the closures of its own type. */
  ghost predicate OwnClosures(chain: seq<Entry>) {
    forall i :: 0 <= i < |chain| ==> chain[i].ser == SerOf(chain[i].tid) && chain[i].deser == DeserOf(chain[i].tid)
  }

  function TidsOf(chain: seq<Entry>): (r: seq<TypeId>)
    ensures |r| == |chain| && forall i :: 0 <= i < |chain| ==> r[i] == chain[i].tid
  {
    seq(|chain|, i requires 0 <= i < |chain| => chain[i].tid)
  }

  /** The type map holds one id per type, so it is as long as the vectors
      exactly when no type occurs twice. */
  lemma TidMapSize(chain: seq<Entry>)
    ensures |TidMapOf(chain)| <= |chain|
    ensures |TidMapOf(chain)| == |chain| <==> DistinctTypes(chain)
  {
    var m, tids := TidMapOf(chain), TidsOf(chain);
    forall t
      ensures t in m <==> t in tids
    {
      TidMapAt(chain, t);
      if t in m {
        assert tids[m[t]] == t;
      }
      if t in tids {
        var i :| 0 <= i < |tids| && tids[i] == t;
        assert chain[i] in chain;
      }
    }
    assert m.Keys == Elements(tids);
    assert |m| == |m.Keys|;
    SetSize(tids);
    if NoDup(tids) {
      forall i, j | 0 <= i < j < |chain|
        ensures chain[i].tid != chain[j].tid
      {
        assert tids[i] != tids[j];
      }
    }
    if DistinctTypes(chain) {
      forall i, j | 0 <= i < j < |tids|
        ensures tids[i] != tids[j]
      {
        assert chain[i].tid != chain[j].tid;
      }
    }
  }

  lemma TidMapInverse(chain: seq<Entry>, mid: MId)
    requires DistinctTypes(chain) && mid < |chain|
    ensures chain[mid].tid in TidMapOf(chain) && TidMapOf(chain)[chain[mid].tid] == mid
  {
    assert chain[mid] in chain;
    TidMapAt(chain, chain[mid].tid);
  }

  lemma {:induction false} CoherentExactly(chain: seq<Entry>)
    requires |chain| >= 3 && OwnClosures(chain)
    requires chain[0].transport == chain[1].transport == chain[2].transport == TCP
    ensures PartsOf(chain).Coherent() <==> DistinctTypes(chain)
  {
    TidMapSize(chain);
    var parts := PartsOf(chain);
    if DistinctTypes(chain) {
      forall mid | 0 <= mid < |chain|
        ensures parts.deser[mid].tid in parts.tidMap && parts.tidMap[parts.deser[mid].tid] == mid
      {
        TidMapInverse(chain, mid);
      }
      forall t | t in parts.tidMap
        ensures parts.tidMap[t] < |chain|
        ensures parts.deser[parts.tidMap[t]] == DeserOf(t) && parts.ser[parts.tidMap[t]] == SerOf(t)
      {
        TidMapAt(chain, t);
      }
    }
  }

  lemma ChainDistinct(table: seq<Entry>, c: TypeId, r: TypeId, d: TypeId)
    requires DistinctTypes(table)
    requires !TidIn(table, c) && !TidIn(table, r) && !TidIn(table, d)
    ensures DistinctTypes(Reserved(c, r, d) + table) <==> c != r && c != d && r != d
  {
    var chain := Reserved(c, r, d) + table;
    assert chain[0].tid == c && chain[1].tid == r && chain[2].tid == d;
    forall j | 3 <= j < |chain|
      ensures chain[j] == table[j - 3] && chain[j].tid != c && chain[j].tid != r && chain[j].tid != d
    {
      assert table[j - 3] in table;
    }
  }

  /** Whatever the three reserved types are, what `build` yields has one closure pair for
      each id, and each type is mapped to an id with its own. */
  lemma {:induction false} BuildShaped(table: seq<Entry>, c: TypeId, r: TypeId, d: TypeId)
    requires OwnClosures(table)
    ensures PartsOf(Reserved(c, r, d) + table).Shaped()
  {
    var chain := Reserved(c, r, d) + table;
    ChainOwn(table, c, r, d);
    assert chain[0].transport == chain[1].transport == chain[2].transport == TCP;
    hide *;
    ChainShaped(chain);
  }

  lemma {:induction false} ChainShaped(chain: seq<Entry>)
    requires |chain| >= 3 && OwnClosures(chain)
    requires chain[0].transport == chain[1].transport == chain[2].transport == TCP
    ensures PartsOf(chain).Shaped()
  {
    hide TidMapOf, DistinctTypes;
    TidMapSize(chain);
    forall t | t in TidMapOf(chain)
      ensures TidMapOf(chain)[t] < |chain| && chain[TidMapOf(chain)[t]].deser == DeserOf(t) && chain[TidMapOf(chain)[t]].ser == SerOf(t)
    {
      TidMapAt(chain, t);
    }
    hide OwnClosures;
  }

  lemma {:induction false} ChainOwn(table: seq<Entry>, c: TypeId, r: TypeId, d: TypeId)
    requires OwnClosures(table)
    ensures OwnClosures(Reserved(c, r, d) + table)
  {
    var chain := Reserved(c, r, d) + table;
    forall i | 0 <= i < |chain|
      ensures chain[i].ser == SerOf(chain[i].tid) && chain[i].deser == DeserOf(chain[i].tid)
    {
      if i >= 3 {
        assert chain[i] == table[i - 3];
      }
    }
  }

  /** What `build` yields is coherent (ids are a bijection with the types, every
      type is routed to its own closures, the three reserved ids go over TCP, and
      the map is as long as the vectors) exactly when `C`, `R` and `D` differ.
      `build` checks each of them against the table but not against each other. */
  lemma BuildCoherent(table: seq<Entry>, c: TypeId, r: TypeId, d: TypeId)
    requires DistinctTypes(table) && OwnClosures(table)
    requires !TidIn(table, c) && !TidIn(table, r) && !TidIn(table, d)
    ensures PartsOf(Reserved(c, r, d) + table).Coherent() <==> c != r && c != d && r != d
    ensures |PartsOf(Reserved(c, r, d) + table).tidMap| == PartsOf(Reserved(c, r, d) + table).MidCount()
            <==> c != r && c != d && r != d
  {
    var chain := Reserved(c, r, d) + table;
    ChainOwn(table, c, r, d);
    ChainDistinct(table, c, r, d);
    CoherentExactly(chain);
    TidMapSize(chain);
  }

  /** With three different types, each reserved type gets its reserved id and the
      k-th registered type gets id k + 3 with the transport it was registered for. */
  lemma IdsInOrder(table: seq<Entry>, c: TypeId, r: TypeId, d: TypeId)
    requires DistinctTypes(table) && OwnClosures(table)
    requires !TidIn(table, c) && !TidIn(table, r) && !TidIn(table, d)
    requires c != r && c != d && r != d
    ensures var parts := PartsOf(Reserved(c, r, d) + table);
            && (forall t :: t in parts.tidMap <==> t == c || t == r || t == d || TidIn(table, t))
            && parts.tidMap[c] == CONNECTION_TYPE_MID
            && parts.tidMap[r] == RESPONSE_TYPE_MID
            && parts.tidMap[d] == DISCONNECT_TYPE_MID
            && forall k :: 0 <= k < |table| ==>
                 parts.tidMap[table[k].tid] == k + 3 && parts.transports[k + 3] == table[k].transport
  {
    var chain := Reserved(c, r, d) + table;
    var m := TidMapOf(chain);
    ChainDistinct(table, c, r, d);
    TidMapInverse(chain, 0);
    TidMapInverse(chain, 1);
    TidMapInverse(chain, 2);
    forall k | 0 <= k < |table|
      ensures chain[k + 3] == table[k] && table[k].tid in m && m[table[k].tid] == k + 3
    {
      TidMapInverse(chain, k + 3);
    }
    forall t
      ensures t in m <==> t == c || t == r || t == d || TidIn(table, t)
    {
      TidMapAt(chain, t);
      TidInChain(table, c, r, d, t);
    }
  }

  lemma TidInChain(table: seq<Entry>, c: TypeId, r: TypeId, d: TypeId, t: TypeId)
    ensures TidIn(Reserved(c, r, d) + table, t) <==> t == c || t == r || t == d || TidIn(table, t)
  {
    var front := Reserved(c, r, d);
    assert front[0] in front && front[1] in front && front[2] in front;
    assert forall e :: e in front + table <==> e in front || e in table;
  }

  /** The loop both `build` functions share. */
  method Assemble(chain: seq<Entry>) returns (parts: MsgTableParts)
    ensures parts == PartsOf(chain)
  {
    var tidMap: map<TypeId, MId> := map[];
    var transports: seq<Transport> := [];
    var ser: seq<SerFn> := [];
    var deser: seq<DeserFn> := [];
    var idx := 0;
    while idx < |chain|
      invariant 0 <= idx <= |chain|
      invariant tidMap == TidMapOf(chain[..idx])
      invariant |transports| == |ser| == |deser| == idx
      invariant forall i :: 0 <= i < idx ==>
                  transports[i] == chain[i].transport && ser[i] == chain[i].ser && deser[i] == chain[i].deser
    {
      assert chain[..idx + 1][..idx] == chain[..idx];
      tidMap := tidMap[chain[idx].tid := idx];
      transports := transports + [chain[idx].transport];
      ser := ser + [chain[idx].ser];
      deser := deser + [chain[idx].deser];
      idx := idx + 1;
    }
    assert chain[..idx] == chain;
    parts := MsgTableParts(tidMap, transports, ser, deser);
  }

  class MsgTable {
    var table: seq<Entry>

    ghost predicate Valid()
      reads this
    {
      DistinctTypes(table) && OwnClosures(table)
    }

    constructor ()
      ensures Valid() && table == []
    {
      table := [];
    }

    predicate TidRegistered(tid: TypeId)
      reads this
    {
      TidIn(table, tid)
    }

    function GetRegistration(tid: TypeId, transport: Transport): Reg<Entry>
      reads this
    {
      if TidRegistered(tid) then Refused(TypeAlreadyRegistered) else Done(EntryFor(tid, transport))
    }

    method Register(tid: TypeId, transport: Transport) returns (r: Reg<()>)
      requires Valid()
      modifies this
      ensures Valid()
      ensures r.Done? <==> !old(TidIn(table, tid))
      ensures r.Done? ==> table == old(table) + [Entry(tid, transport, SerOf(tid), DeserOf(tid))]
      ensures r.Refused? ==> table == old(table) && r.error == TypeAlreadyRegistered
    {
      var reg := GetRegistration(tid, transport);
      match reg {
        case Refused(e) => r := Refused(e);
        case Done(e) =>
          table := table + [e];
          r := Done(());
      }
    }

    /** All or nothing: the tables are joined exactly when they share no type. */
    method Join(other: MsgTable) returns (r: Reg<()>)
      requires Valid() && other.Valid()
      modifies this
      ensures Valid()
      ensures r.Done? <==> forall e :: e in old(other.table) ==> !old(TidIn(table, e.tid))
      ensures r.Done? ==> table == old(table) + old(other.table)
      ensures r.Refused? ==> table == old(table) && r.error == TypeAlreadyRegistered
    {
      if exists e :: e in other.table && TidRegistered(e.tid) {
        return Refused(TypeAlreadyRegistered);
      }
      ghost var mine, theirs := table, other.table;
      var entries := other.table;
      var i := 0;
      while i < |entries|
        invariant 0 <= i <= |entries|
        invariant table == mine + entries[..i]
      {
        table := table + [entries[i]];
        i := i + 1;
      }
      assert entries[..i] == theirs;
      assert forall k :: 0 <= k < |mine| ==> mine[k] in mine;
      assert forall k :: 0 <= k < |theirs| ==> theirs[k] in theirs;
      r := Done(());
    }

    method Build(c: TypeId, r: TypeId, d: TypeId) returns (res: Reg<MsgTableParts>)
      requires Valid()
      ensures res.Done? <==> !TidIn(table, c) && !TidIn(table, r) && !TidIn(table, d)
      ensures res.Refused? ==> res.error == TypeAlreadyRegistered
      ensures res.Done? ==> res.value == PartsOf(Reserved(c, r, d) + table)
      ensures res.Done? ==> res.value.Shaped() && (res.value.Coherent() <==> c != r && c != d && r != d)
    {
      var con := GetRegistration(c, TCP);
      var rsp := GetRegistration(r, TCP);
      var dis := GetRegistration(d, TCP);
      match (con, rsp, dis) {
        case (Refused(e), _, _) => return Refused(e);
        case (_, Refused(e), _) => return Refused(e);
        case (_, _, Refused(e)) => return Refused(e);
        case (Done(x), Done(y), Done(z)) =>
          assert [x, y, z] == Reserved(c, r, d);
          var parts := Assemble([x, y, z] + table);
          BuildShaped(table, c, r, d);
          BuildCoherent(table, c, r, d);
          res := Done(parts);
      }
    }
  }

  // ------------------------------------------------- the order of identifiers

  /** Rust compares strings by their first difference. */
  predicate StrLe(a: string, b: string) {
    a == [] || (b != [] && (a[0] < b[0] || (a[0] == b[0] && StrLe(a[1..], b[1..]))))
  }

  /** One string comes before another if it is a prefix of it, or is smaller at the first
      place where they differ. */
  lemma {:induction false} StrLeIs(a: string, b: string)
    ensures StrLe(a, b) <==> a <= b || exists i :: 0 <= i < Min(|a|, |b|) && a[..i] == b[..i] && a[i] < b[i]
  {
    if a != [] && b != [] {
      var x, y := a[1..], b[1..];
      StrLeIs(x, y);
      if a[0] == b[0] {
        HeadTail(a);
        HeadTail(b);
        assert a <= b <==> x <= y;
        forall i | 0 <= i < Min(|x|, |y|)
          ensures a[..i + 1] == [a[0]] + x[..i] && b[..i + 1] == [b[0]] + y[..i]
        {
        }
        if i :| 0 <= i < Min(|x|, |y|) && x[..i] == y[..i] && x[i] < y[i] {
          assert a[..i + 1] == b[..i + 1] && a[i + 1] < b[i + 1];
        }
        if i :| 0 <= i < Min(|a|, |b|) && a[..i] == b[..i] && a[i] < b[i] {
          assert x[..i - 1] == a[..i][1..] == b[..i][1..] == y[..i - 1] && x[i - 1] < y[i - 1];
        }
      } else {
        assert !(a <= b);
        assert a[..0] == b[..0];
        forall i | 0 < i < Min(|a|, |b|)
          ensures a[..i] != b[..i]
        {
          assert a[..i][0] == a[0] && b[..i][0] == b[0];
        }
      }
    }
  }

  lemma {:induction false} StrLeTotal(a: string, b: string)
    ensures StrLe(a, b) || StrLe(b, a)
    ensures StrLe(a, b) && StrLe(b, a) ==> a == b
  {
    if a != [] && b != [] && a[0] == b[0] {
      StrLeTotal(a[1..], b[1..]);
      assert a == [a[0]] + a[1..] && b == [b[0]] + b[1..];
    }
  }

  lemma {:induction false} StrLeTrans(a: string, b: string, c: string)
    requires StrLe(a, b) && StrLe(b, c)
    ensures StrLe(a, c)
  {
    if a != [] && a[0] == b[0] == c[0] {
      StrLeTrans(a[1..], b[1..], c[1..]);
    }
  }

  ghost predicate SortedById(s: seq<SortedEntry>) {
    forall i, j :: 0 <= i < j < |s| ==> StrLe(s[i].id, s[j].id)
  }

  /** Where a stable sort puts one more entry: before the entries above it. */
  function Insert(e: SortedEntry, s: seq<SortedEntry>): (r: seq<SortedEntry>) {
    if s == [] then [e]
    else if StrLe(e.id, s[0].id) then [e] + s
    else [s[0]] + Insert(e, s[1..])
  }

  /** `slice::sort_by` on the identifiers. */
  function SortById(s: seq<SortedEntry>): seq<SortedEntry> {
    if s == [] then [] else Insert(s[0], SortById(s[1..]))
  }

  lemma {:induction false} InsertAdds(e: SortedEntry, s: seq<SortedEntry>)
    ensures multiset(Insert(e, s)) == multiset(s) + multiset{e}
    ensures forall x :: x in Insert(e, s) <==> x == e || x in s
  {
    if s != [] {
      HeadTail(s);
      InsertAdds(e, s[1..]);
    }
  }

  lemma {:induction false} SortedFirst(x: SortedEntry, s: seq<SortedEntry>)
    requires SortedById(s) && forall y :: y in s ==> StrLe(x.id, y.id)
    ensures SortedById([x] + s)
  {
  }

  lemma {:induction false} InsertSorts(e: SortedEntry, s: seq<SortedEntry>)
    requires SortedById(s)
    ensures SortedById(Insert(e, s))
  {
    if s == [] {
    } else if StrLe(e.id, s[0].id) {
      forall y | y in s
        ensures StrLe(e.id, y.id)
      {
        var j :| 0 <= j < |s| && s[j] == y;
        if j > 0 {
          StrLeTrans(e.id, s[0].id, y.id);
        }
      }
      SortedFirst(e, s);
    } else {
      InsertSorts(e, s[1..]);
      InsertAdds(e, s[1..]);
      StrLeTotal(e.id, s[0].id);
      hide Insert;
      SortedFirst(s[0], Insert(e, s[1..]));
    }
  }

  lemma {:induction false} SortSorts(s: seq<SortedEntry>)
    ensures SortedById(SortById(s)) && multiset(SortById(s)) == multiset(s)
  {
    if s != [] {
      HeadTail(s);
      SortSorts(s[1..]);
      InsertSorts(s[0], SortById(s[1..]));
      InsertAdds(s[0], SortById(s[1..]));
    }
  }

  ghost predicate DistinctIds(s: seq<SortedEntry>) {
    forall i, j :: 0 <= i < j < |s| ==> s[i].id != s[j].id
  }

  /** Without repeated identifiers there is one sorted order of a set of entries. */
  lemma {:induction false} SortedOnce(s: seq<SortedEntry>, t: seq<SortedEntry>)
    requires SortedById(s) && SortedById(t) && DistinctIds(s) && DistinctIds(t)
    requires forall e :: e in s <==> e in t
    ensures s == t
  {
    Inhabited(s);
    Inhabited(t);
    if s != [] {
      SameFirst(s, t);
      forall e
        ensures e in s[1..] <==> e in t[1..]
      {
        TailWithoutHead(s, e);
        TailWithoutHead(t, e);
      }
      SortedOnce(s[1..], t[1..]);
      HeadTail(s);
      HeadTail(t);
    }
  }

  lemma SameFirst(s: seq<SortedEntry>, t: seq<SortedEntry>)
    requires SortedById(s) && SortedById(t) && DistinctIds(t)
    requires s != [] && t != [] && s[0] in t && t[0] in s
    ensures s[0] == t[0]
  {
    var i :| 0 <= i < |t| && t[i] == s[0];
    var j :| 0 <= j < |s| && s[j] == t[0];
    StrLeTotal(t[0].id, s[0].id);
    assert i > 0 ==> StrLe(t[0].id, t[i].id);
    assert j > 0 ==> StrLe(s[0].id, s[j].id);
  }

  lemma TailWithoutHead(s: seq<SortedEntry>, e: SortedEntry)
    requires s != [] && DistinctIds(s)
    ensures e in s[1..] <==> e in s && e != s[0]
  {
    if e in s && e != s[0] {
      var k :| 0 <= k < |s| && s[k] == e;
      assert s[1..][k - 1] == e;
    }
  }

  lemma SameMembers(s: seq<SortedEntry>, r: seq<SortedEntry>)
    requires multiset(r) == multiset(s)
    ensures |r| == |s| && forall e :: e in r <==> e in s
  {
    assert |r| == |multiset(r)| && |s| == |multiset(s)|;
    forall e
      ensures e in r <==> e in s
    {
      assert e in r <==> e in multiset(r);
      assert e in s <==> e in multiset(s);
    }
  }

  lemma Twice(r: seq<SortedEntry>, i: nat, j: nat)
    requires i < j < |r| && r[i] == r[j]
    ensures multiset(r)[r[i]] >= 2
  {
    assert r == r[..i] + [r[i]] + r[i + 1..j] + [r[j]] + r[j + 1..];
  }

  lemma Once(s: seq<SortedEntry>, a: nat)
    requires DistinctIds(s) && a < |s|
    ensures multiset(s)[s[a]] == 1
  {
    assert s == s[..a] + [s[a]] + s[a + 1..];
    assert s[a] !in s[..a] && s[a] !in s[a + 1..];
  }

  lemma SortKeepsDistinct(s: seq<SortedEntry>, r: seq<SortedEntry>)
    requires DistinctIds(s) && multiset(r) == multiset(s)
    ensures DistinctIds(r)
    ensures forall e :: e in r <==> e in s
  {
    SameMembers(s, r);
    forall i, j | 0 <= i < j < |r|
      ensures r[i].id != r[j].id
    {
      if r[i].id == r[j].id {
        assert r[i] in s && r[j] in s;
        var a :| 0 <= a < |s| && s[a] == r[i];
        var b :| 0 <= b < |s| && s[b] == r[j];
        assert a == b;
        Twice(r, i, j);
        Once(s, a);
        assert false;
      }
    }
  }

  // --------------------------------------------------------------- SortedMsgTable

  ghost predicate Unique(table: seq<SortedEntry>) {
    && DistinctIds(table)
    && DistinctTypes(Entries(table))
    && OwnClosures(Entries(table))
  }

  function Entries(s: seq<SortedEntry>): (r: seq<Entry>)
    ensures |r| == |s| && forall i :: 0 <= i < |s| ==> r[i] == s[i].entry
  {
    seq(|s|, i requires 0 <= i < |s| => s[i].entry)
  }

  predicate IdIn(table: seq<SortedEntry>, id: string) {
    exists e :: e in table && e.id == id
  }

  predicate SortedTidIn(table: seq<SortedEntry>, tid: TypeId) {
    exists e :: e in table && e.entry.tid == tid
  }

  const CONNECTION_ID := "carrier-pigeon::connection"
  const RESPONSE_ID := "carrier-pigeon::response"
  const DISCONNECT_ID := "carrier-pigeon::disconnect"

  /** The registration check: the identifier first, then the type. */
  function Registration(table: seq<SortedEntry>, tid: TypeId, transport: Transport, id: string): Reg<SortedEntry> {
    if IdIn(table, id) then Refused(NonUniqueIdentifier)
    else if SortedTidIn(table, tid) then Refused(TypeAlreadyRegistered)
    else Done(SortedEntry(id, EntryFor(tid, transport)))
  }

  ghost predicate Disjoint(mine: seq<SortedEntry>, theirs: seq<SortedEntry>) {
    forall e :: e in theirs ==> !SortedTidIn(mine, e.entry.tid) && !IdIn(mine, e.id)
  }

  /** Whether `build` accepts the three reserved types. */
  predicate BuildAccepts(table: seq<SortedEntry>, c: TypeId, r: TypeId, d: TypeId) {
    && !IdIn(table, CONNECTION_ID) && !IdIn(table, RESPONSE_ID) && !IdIn(table, DISCONNECT_ID)
    && !SortedTidIn(table, c) && !SortedTidIn(table, r) && !SortedTidIn(table, d)
  }

  /** The error of the first of C, R, D that cannot be registered; an identifier that is
      taken is noticed before a type that is. */
  function BuildError(table: seq<SortedEntry>, c: TypeId, r: TypeId, d: TypeId): MsgRegError {
    if IdIn(table, CONNECTION_ID) then NonUniqueIdentifier
    else if SortedTidIn(table, c) then TypeAlreadyRegistered
    else if IdIn(table, RESPONSE_ID) then NonUniqueIdentifier
    else if SortedTidIn(table, r) then TypeAlreadyRegistered
    else if IdIn(table, DISCONNECT_ID) then NonUniqueIdentifier
    else TypeAlreadyRegistered
  }

  class SortedMsgTable {
    var table: seq<SortedEntry>

    ghost predicate Valid()
      reads this
    {
      Unique(table)
    }

    constructor ()
      ensures Valid() && table == []
    {
      table := [];
    }

    method Register(tid: TypeId, transport: Transport, id: string) returns (r: Reg<()>)
      requires Valid()
      modifies this
      ensures Valid()
      ensures r.Done? <==> !old(IdIn(table, id)) && !old(SortedTidIn(table, tid))
      ensures r.Refused? ==> r.error == if old(IdIn(table, id)) then NonUniqueIdentifier else TypeAlreadyRegistered
      ensures r.Done? ==> table == old(table) + [SortedEntry(id, Entry(tid, transport, SerOf(tid), DeserOf(tid)))]
      ensures r.Refused? ==> table == old(table)
    {
      var reg := Registration(table, tid, transport, id);
      match reg {
        case Refused(e) => r := Refused(e);
        case Done(e) =>
          assert Disjoint(table, [e]);
          UniqueAppend(table, [e]);
          table := table + [e];
          r := Done(());
      }
    }

    /** All or nothing: the tables are joined exactly when they share neither a
        type nor an identifier, and a shared type is what is reported first. */
    method Join(other: SortedMsgTable) returns (r: Reg<()>)
      requires Valid() && other.Valid()
      modifies this
      ensures Valid()
      ensures r.Done? <==> Disjoint(old(table), old(other.table))
      ensures r.Refused? ==>
                (r.error == TypeAlreadyRegistered <==>
                 exists e :: e in old(other.table) && SortedTidIn(old(table), e.entry.tid))
      ensures r.Done? ==> table == old(table) + old(other.table)
      ensures r.Refused? ==> table == old(table)
    {
      if exists e :: e in other.table && SortedTidIn(table, e.entry.tid) {
        return Refused(TypeAlreadyRegistered);
      }
      if exists e :: e in other.table && IdIn(table, e.id) {
        return Refused(NonUniqueIdentifier);
      }
      UniqueAppend(table, other.table);
      ghost var mine := table;
      var entries := other.table;
      var i := 0;
      while i < |entries|
        invariant 0 <= i <= |entries|
        invariant table == mine + entries[..i]
      {
        table := table + [entries[i]];
        i := i + 1;
      }
      assert entries[..i] == entries;
      r := Done(());
    }

    method Build(c: TypeId, r: TypeId, d: TypeId) returns (res: Reg<MsgTableParts>)
      requires Valid()
      ensures res.Done? <==> BuildAccepts(table, c, r, d)
      ensures res.Refused? ==> res.error == BuildError(table, c, r, d)
      ensures res.Done? ==> res.value == PartsOf(Reserved(c, r, d) + Entries(SortById(table)))
      ensures res.Done? ==> res.value.Shaped() && (res.value.Coherent() <==> c != r && c != d && r != d)
    {
      var con := Registration(table, c, TCP, CONNECTION_ID);
      var rsp := Registration(table, r, TCP, RESPONSE_ID);
      var dis := Registration(table, d, TCP, DISCONNECT_ID);
      match (con, rsp, dis) {
        case (Refused(e), _, _) => return Refused(e);
        case (_, Refused(e), _) => return Refused(e);
        case (_, _, Refused(e)) => return Refused(e);
        case (Done(x), Done(y), Done(z)) =>
          var sorted := SortById(table);
          assert [x.entry, y.entry, z.entry] == Reserved(c, r, d);
          var parts := Assemble([x.entry, y.entry, z.entry] + Entries(sorted));
          SortKeepsUnique(table);
          BuildShaped(Entries(sorted), c, r, d);
          BuildCoherent(Entries(sorted), c, r, d);
          res := Done(parts);
      }
    }
  }

  lemma UniqueAppend(mine: seq<SortedEntry>, theirs: seq<SortedEntry>)
    requires Unique(mine) && Unique(theirs) && Disjoint(mine, theirs)
    ensures Unique(mine + theirs)
  {
    var both := mine + theirs;
    forall i, j | 0 <= i < j < |both|
      ensures both[i].id != both[j].id && both[i].entry.tid != both[j].entry.tid
    {
      if i < |mine| <= j {
        assert both[i] in mine && both[j] in theirs;
      } else if j < |mine| {
        assert Entries(mine)[i].tid != Entries(mine)[j].tid;
      } else {
        assert Entries(theirs)[i - |mine|].tid != Entries(theirs)[j - |mine|].tid;
      }
    }
    forall i | 0 <= i < |both|
      ensures both[i].entry.ser == SerOf(both[i].entry.tid) && both[i].entry.deser == DeserOf(both[i].entry.tid)
    {
      if i < |mine| {
        assert Entries(mine)[i] == both[i].entry;
      } else {
        assert Entries(theirs)[i - |mine|] == both[i].entry;
      }
    }
  }

  lemma SortKeepsUnique(table: seq<SortedEntry>)
    requires Unique(table)
    ensures Unique(SortById(table))
    ensures forall e :: e in SortById(table) <==> e in table
    ensures forall tid :: TidIn(Entries(SortById(table)), tid) <==> SortedTidIn(table, tid)
  {
    var s := SortById(table);
    SortSorts(table);
    SortKeepsDistinct(table, s);
    forall i, j | 0 <= i < j < |s|
      ensures s[i].entry.tid != s[j].entry.tid
    {
      assert s[i] in s;
      var a :| 0 <= a < |table| && table[a] == s[i];
      assert s[j] in s;
      var b :| 0 <= b < |table| && table[b] == s[j];
      assert a != b;
      assert Entries(table)[a].tid != Entries(table)[b].tid;
    }
    forall i | 0 <= i < |s|
      ensures s[i].entry.ser == SerOf(s[i].entry.tid) && s[i].entry.deser == DeserOf(s[i].entry.tid)
    {
      assert s[i] in s;
      var a :| 0 <= a < |table| && table[a] == s[i];
      assert Entries(table)[a] == s[i].entry;
    }
    forall tid
      ensures TidIn(Entries(s), tid) <==> SortedTidIn(table, tid)
    {
      if SortedTidIn(table, tid) {
        var e :| e in table && e.entry.tid == tid;
        var k :| 0 <= k < |s| && s[k] == e;
        assert Entries(s)[k] in Entries(s);
      }
      if TidIn(Entries(s), tid) {
        var k :| 0 <= k < |s| && Entries(s)[k].tid == tid;
        assert s[k] in table;
      }
    }
  }

  /** A history of calls on one sorted table; the joined table has its own history. */
  datatype Script =
    | New
    | Registered(before: Script, tid: TypeId, transport: Transport, id: string)
    | Joined(before: Script, other: Script)

  /** The table a history leaves: a refused call changes nothing. */
  ghost function TableOf(script: Script): (table: seq<SortedEntry>)
    ensures Unique(table)
  {
    match script
    case New => []
    case Registered(before, tid, transport, id) =>
      var table := TableOf(before);
      var reg := Registration(table, tid, transport, id);
      if reg.Done? then
        assert Disjoint(table, [reg.value]);
        UniqueAppend(table, [reg.value]);
        table + [reg.value]
      else table
    case Joined(before, other) =>
      var mine, theirs := TableOf(before), TableOf(other);
      if Disjoint(mine, theirs) then
        UniqueAppend(mine, theirs);
        mine + theirs
      else mine
  }

  /** Making the calls of a history leaves the table the history stands for. */
  method Replay(script: Script) returns (t: SortedMsgTable)
    ensures fresh(t) && t.Valid() && t.table == TableOf(script)
    decreases script
  {
    match script {
      case New => t := new SortedMsgTable();
      case Registered(before, tid, transport, id) =>
        t := Replay(before);
        var r := t.Register(tid, transport, id);
      case Joined(before, other) =>
        t := Replay(before);
        var theirs := Replay(other);
        var r := t.Join(theirs);
    }
  }

  ghost predicate HasEntry(table: seq<SortedEntry>, id: string, tid: TypeId, transport: Transport) {
    exists e :: e in table && e.id == id && e.entry.tid == tid && e.entry.transport == transport
  }

  /** A table without repetition has one entry with a given triple. */
  lemma OneEntry(a: seq<SortedEntry>, b: seq<SortedEntry>, e: SortedEntry)
    requires Unique(a) && Unique(b) && e in a
    ensures HasEntry(a, e.id, e.entry.tid, e.entry.transport)
    ensures HasEntry(b, e.id, e.entry.tid, e.entry.transport) ==> e in b
  {
    var k :| 0 <= k < |a| && a[k] == e;
    assert Entries(a)[k] == e.entry;
    if HasEntry(b, e.id, e.entry.tid, e.entry.transport) {
      var x :| x in b && x.id == e.id && x.entry.tid == e.entry.tid && x.entry.transport == e.entry.transport;
      var j :| 0 <= j < |b| && b[j] == x;
      assert Entries(b)[j] == x.entry;
    }
  }

  /** Peers that registered the same (identifier, type, transport) triples in any
      order, one by one or through joins, build the same parts: they agree on
      every message id. */
  lemma TablesAgree(here: Script, there: Script, c: TypeId, r: TypeId, d: TypeId)
    requires forall id, tid, transport ::
               HasEntry(TableOf(here), id, tid, transport) <==> HasEntry(TableOf(there), id, tid, transport)
    ensures SortById(TableOf(here)) == SortById(TableOf(there))
    ensures BuildAccepts(TableOf(here), c, r, d) <==> BuildAccepts(TableOf(there), c, r, d)
    ensures PartsOf(Reserved(c, r, d) + Entries(SortById(TableOf(here))))
            == PartsOf(Reserved(c, r, d) + Entries(SortById(TableOf(there))))
  {
    var a, b := TableOf(here), TableOf(there);
    forall e
      ensures e in a <==> e in b
    {
      if e in a {
        OneEntry(a, b, e);
      }
      if e in b {
        OneEntry(b, a, e);
      }
      assert HasEntry(a, e.id, e.entry.tid, e.entry.transport) <==> HasEntry(b, e.id, e.entry.tid, e.entry.transport);
    }
    SortKeepsUnique(a);
    SortKeepsUnique(b);
    SortSorts(a);
    SortSorts(b);
    SortedOnce(SortById(a), SortById(b));
  }

  // ------------------------------------------------------ from the calls to the parts

  /** The parts send and receive a type by its own closures and over this transport. */
  ghost predicate Routes(parts: MsgTableParts, tid: TypeId, transport: Transport) {
    && tid in parts.tidMap
    && DISCONNECT_TYPE_MID < parts.tidMap[tid] < |parts.transports| == |parts.ser| == |parts.deser|
    && parts.transports[parts.tidMap[tid]] == transport
    && parts.ser[parts.tidMap[tid]] == SerOf(tid) && parts.deser[parts.tidMap[tid]] == DeserOf(tid)
  }

  /** The k-th entry of a table gets id k + 3, whatever the three reserved types are. */
  lemma {:induction false} EntryRouted(table: seq<Entry>, k: nat, c: TypeId, r: TypeId, d: TypeId)
    requires DistinctTypes(table) && OwnClosures(table) && k < |table|
    requires table[k].tid != c && table[k].tid != r && table[k].tid != d
    ensures var parts := PartsOf(Reserved(c, r, d) + table);
            Routes(parts, table[k].tid, table[k].transport) && parts.tidMap[table[k].tid] == k + 3
  {
    var chain := Reserved(c, r, d) + table;
    var t := table[k].tid;
    assert chain[k + 3] == table[k] && chain[k + 3] in chain;
    TidMapAt(chain, t);
    var at := TidMapOf(chain)[t];
    assert chain[0].tid == c && chain[1].tid == r && chain[2].tid == d;
    assert chain[at] == table[at - 3];
  }

  /** A call that registers `tid` over `transport` as `id` and succeeds is among the calls
      that made the table, or a table that was joined. */
  ghost predicate Registers(script: Script, tid: TypeId, transport: Transport, id: string) {
    match script
    case New => false
    case Registered(before, t, over, name) =>
      || Registers(before, tid, transport, id)
      || (t == tid && over == transport && name == id && !IdIn(TableOf(before), name) && !SortedTidIn(TableOf(before), t))
    case Joined(before, other) =>
      || Registers(before, tid, transport, id)
      || (Disjoint(TableOf(before), TableOf(other)) && Registers(other, tid, transport, id))
  }

  /** Some successful call registers `tid`. */
  ghost predicate InScript(script: Script, tid: TypeId) {
    exists transport, id :: Registers(script, tid, transport, id)
  }

  lemma EntryOfBoth(a: seq<SortedEntry>, b: seq<SortedEntry>, id: string, tid: TypeId, transport: Transport)
    ensures HasEntry(a + b, id, tid, transport) <==> HasEntry(a, id, tid, transport) || HasEntry(b, id, tid, transport)
  {
    assert forall e :: e in a + b <==> e in a || e in b;
  }

  lemma EntryOfOne(e: SortedEntry, id: string, tid: TypeId, transport: Transport)
    ensures HasEntry([e], id, tid, transport) <==> e.id == id && e.entry.tid == tid && e.entry.transport == transport
  {
    assert e in [e];
  }

  /** The entries of a table are the successful calls of its history, with their arguments. */
  lemma {:induction false} EntriesAreCalls(script: Script, tid: TypeId, transport: Transport, id: string)
    ensures HasEntry(TableOf(script), id, tid, transport) <==> Registers(script, tid, transport, id)
    decreases script
  {
    hide HasEntry, Disjoint, IdIn, SortedTidIn, Unique;
    match script
    case New =>
      assert !HasEntry([], id, tid, transport) by {
        NoEntry(id, tid, transport);
      }
    case Registered(before, t, over, name) =>
      EntriesAreCalls(before, tid, transport, id);
      var reg := Registration(TableOf(before), t, over, name);
      if reg.Done? {
        EntryOfBoth(TableOf(before), [reg.value], id, tid, transport);
        EntryOfOne(reg.value, id, tid, transport);
      }
    case Joined(before, other) =>
      EntriesAreCalls(before, tid, transport, id);
      EntriesAreCalls(other, tid, transport, id);
      EntryOfBoth(TableOf(before), TableOf(other), id, tid, transport);
  }

  lemma NoEntry(id: string, tid: TypeId, transport: Transport)
    ensures !HasEntry([], id, tid, transport)
  {
  }

  /** What `SortedMsgTable::build` makes of a history. */
  ghost function Built(script: Script, c: TypeId, r: TypeId, d: TypeId): MsgTableParts {
    PartsOf(Reserved(c, r, d) + Entries(SortById(TableOf(script))))
  }

  /** The place of a registered type among the sorted entries. */
  lemma {:induction false} PlaceOf(script: Script, tid: TypeId, transport: Transport, id: string, c: TypeId, r: TypeId, d: TypeId)
    returns (k: nat)
    requires Registers(script, tid, transport, id) && BuildAccepts(TableOf(script), c, r, d)
    ensures var s := SortById(TableOf(script)); k < |s| && s[k].id == id
    ensures Routes(Built(script, c, r, d), tid, transport) && Built(script, c, r, d).tidMap[tid] == k + 3
  {
    var table := TableOf(script);
    var s := SortById(table);
    EntriesAreCalls(script, tid, transport, id);
    SortKeepsUnique(table);
    var e :| e in table && e.id == id && e.entry.tid == tid && e.entry.transport == transport;
    assert e in s;
    k :| 0 <= k < |s| && s[k] == e;
    EntryRouted(Entries(s), k, c, r, d);
  }

  /** Whatever was registered and joined in whatever order: in the parts that are built, each
      type that a call registered goes over the transport that call was given, with its
      own closures; there are no other types but the three reserved ones; and the ids
      ascend with the identifiers. */
  lemma {:induction false} BuiltAsRegistered(script: Script, c: TypeId, r: TypeId, d: TypeId)
    requires BuildAccepts(TableOf(script), c, r, d)
    ensures forall tid, transport, id :: Registers(script, tid, transport, id) ==> Routes(Built(script, c, r, d), tid, transport)
    ensures forall tid :: tid in Built(script, c, r, d).tidMap <==>
              tid == c || tid == r || tid == d || InScript(script, tid)
    ensures forall t, u, over, via, a, b ::
              Registers(script, t, over, a) && Registers(script, u, via, b) && a != b && StrLe(a, b) ==>
                t in Built(script, c, r, d).tidMap && u in Built(script, c, r, d).tidMap
                && Built(script, c, r, d).tidMap[t] < Built(script, c, r, d).tidMap[u]
  {
    hide *;
    forall tid, transport, id | Registers(script, tid, transport, id)
      ensures Routes(Built(script, c, r, d), tid, transport)
    {
      var k := PlaceOf(script, tid, transport, id, c, r, d);
    }
    forall tid
      ensures tid in Built(script, c, r, d).tidMap <==>
              tid == c || tid == r || tid == d || InScript(script, tid)
    {
      BuiltTypes(script, c, r, d, tid);
    }
    forall t, u, over, via, a, b | Registers(script, t, over, a) && Registers(script, u, via, b) && a != b && StrLe(a, b)
      ensures t in Built(script, c, r, d).tidMap && u in Built(script, c, r, d).tidMap
      ensures Built(script, c, r, d).tidMap[t] < Built(script, c, r, d).tidMap[u]
    {
      var i := PlaceOf(script, t, over, a, c, r, d);
      var j := PlaceOf(script, u, via, b, c, r, d);
      RouteHas(Built(script, c, r, d), t, over);
      RouteHas(Built(script, c, r, d), u, via);
      SortedPlaces(TableOf(script), i, j);
    }
  }

  lemma RouteHas(parts: MsgTableParts, tid: TypeId, transport: Transport)
    requires Routes(parts, tid, transport)
    ensures tid in parts.tidMap
  {
  }

  lemma {:induction false} SortedPlaces(table: seq<SortedEntry>, i: nat, j: nat)
    requires i < |SortById(table)| && j < |SortById(table)|
    requires SortById(table)[i].id != SortById(table)[j].id && StrLe(SortById(table)[i].id, SortById(table)[j].id)
    ensures i < j
  {
    SortSorts(table);
    StrLeTotal(SortById(table)[i].id, SortById(table)[j].id);
  }

  lemma {:induction false} BuiltTypes(script: Script, c: TypeId, r: TypeId, d: TypeId, tid: TypeId)
    ensures tid in Built(script, c, r, d).tidMap <==>
            tid == c || tid == r || tid == d || InScript(script, tid)
  {
    var table := TableOf(script);
    SortKeepsUnique(table);
    TidMapAt(Reserved(c, r, d) + Entries(SortById(table)), tid);
    TidInChain(Entries(SortById(table)), c, r, d, tid);
    hide Unique, Registers, TidMapOf, TidIn;
    if SortedTidIn(table, tid) {
      var e :| e in table && e.entry.tid == tid;
      EntriesAreCalls(script, tid, e.entry.transport, e.id);
    }
    if transport, id :| Registers(script, tid, transport, id) {
      EntriesAreCalls(script, tid, transport, id);
    }
  }

  // ----------------------------------------------------------- the same for `MsgTable`

  ghost predicate NoneShared(mine: seq<Entry>, theirs: seq<Entry>) {
    forall e :: e in theirs ==> !TidIn(mine, e.tid)
  }

  lemma {:induction false} DistinctAppend(mine: seq<Entry>, theirs: seq<Entry>)
    requires DistinctTypes(mine) && DistinctTypes(theirs) && OwnClosures(mine) && OwnClosures(theirs) && NoneShared(mine, theirs)
    ensures DistinctTypes(mine + theirs) && OwnClosures(mine + theirs)
  {
    var all := mine + theirs;
    forall i, j | 0 <= i < j < |all|
      ensures all[i].tid != all[j].tid
    {
      if i < |mine| <= j {
        assert all[i] in mine && all[j] in theirs;
      }
    }
  }

  /** The table the same history leaves when it knows no identifiers. */
  ghost function PlainTableOf(script: Script): (table: seq<Entry>)
    ensures DistinctTypes(table) && OwnClosures(table)
  {
    match script
    case New => []
    case Registered(before, tid, transport, _) =>
      var table := PlainTableOf(before);
      if TidIn(table, tid) then table
      else
        DistinctAppend(table, [EntryFor(tid, transport)]);
        table + [EntryFor(tid, transport)]
    case Joined(before, other) =>
      var mine, theirs := PlainTableOf(before), PlainTableOf(other);
      if NoneShared(mine, theirs) then
        DistinctAppend(mine, theirs);
        mine + theirs
      else mine
  }

  method ReplayPlain(script: Script) returns (t: MsgTable)
    ensures fresh(t) && t.Valid() && t.table == PlainTableOf(script)
    decreases script
  {
    match script {
      case New => t := new MsgTable();
      case Registered(before, tid, transport, _) =>
        t := ReplayPlain(before);
        var r := t.Register(tid, transport);
      case Joined(before, other) =>
        t := ReplayPlain(before);
        var theirs := ReplayPlain(other);
        var r := t.Join(theirs);
    }
  }

  ghost predicate RegistersPlain(script: Script, tid: TypeId, transport: Transport) {
    match script
    case New => false
    case Registered(before, t, over, _) =>
      RegistersPlain(before, tid, transport) || (t == tid && over == transport && !TidIn(PlainTableOf(before), t))
    case Joined(before, other) =>
      || RegistersPlain(before, tid, transport)
      || (NoneShared(PlainTableOf(before), PlainTableOf(other)) && RegistersPlain(other, tid, transport))
  }

  ghost predicate InPlainScript(script: Script, tid: TypeId) {
    exists transport :: RegistersPlain(script, tid, transport)
  }

  ghost predicate HasPlain(table: seq<Entry>, tid: TypeId, transport: Transport) {
    exists e :: e in table && e.tid == tid && e.transport == transport
  }

  lemma PlainOfBoth(a: seq<Entry>, b: seq<Entry>, tid: TypeId, transport: Transport)
    ensures HasPlain(a + b, tid, transport) <==> HasPlain(a, tid, transport) || HasPlain(b, tid, transport)
  {
    assert forall e :: e in a + b <==> e in a || e in b;
  }

  lemma PlainOfOne(e: Entry, tid: TypeId, transport: Transport)
    ensures HasPlain([e], tid, transport) <==> e.tid == tid && e.transport == transport
    ensures !HasPlain([], tid, transport)
  {
    assert e in [e];
  }

  lemma {:induction false} PlainEntriesAreCalls(script: Script, tid: TypeId, transport: Transport)
    ensures HasPlain(PlainTableOf(script), tid, transport) <==> RegistersPlain(script, tid, transport)
    decreases script
  {
    hide HasPlain, NoneShared, TidIn, DistinctTypes, OwnClosures;
    match script
    case New => PlainOfOne(EntryFor(tid, transport), tid, transport);
    case Registered(before, t, over, _) =>
      PlainEntriesAreCalls(before, tid, transport);
      PlainOfBoth(PlainTableOf(before), [EntryFor(t, over)], tid, transport);
      PlainOfOne(EntryFor(t, over), tid, transport);
    case Joined(before, other) =>
      PlainEntriesAreCalls(before, tid, transport);
      PlainEntriesAreCalls(other, tid, transport);
      PlainOfBoth(PlainTableOf(before), PlainTableOf(other), tid, transport);
  }

  /** In the parts `MsgTable::build` makes, each type that a successful call registered goes
      over the transport that call was given, and there are no other types but the
      three reserved ones. */
  lemma {:induction false} PlainBuiltAsRegistered(script: Script, c: TypeId, r: TypeId, d: TypeId)
    requires var table := PlainTableOf(script); !TidIn(table, c) && !TidIn(table, r) && !TidIn(table, d)
    ensures var parts := PartsOf(Reserved(c, r, d) + PlainTableOf(script));
            && (forall tid, transport :: RegistersPlain(script, tid, transport) ==> Routes(parts, tid, transport))
            && (forall tid :: tid in parts.tidMap <==>
                  tid == c || tid == r || tid == d || InPlainScript(script, tid))
  {
    hide Routes, RegistersPlain, PlainTableOf, TidMapOf, Reserved;
    var table := PlainTableOf(script);
    forall tid, transport | RegistersPlain(script, tid, transport)
      ensures Routes(PartsOf(Reserved(c, r, d) + table), tid, transport)
    {
      PlainEntriesAreCalls(script, tid, transport);
      var e :| e in table && e.tid == tid && e.transport == transport;
      var k :| 0 <= k < |table| && table[k] == e;
      EntryRouted(table, k, c, r, d);
    }
    forall tid
      ensures tid in PartsOf(Reserved(c, r, d) + table).tidMap <==>
              tid == c || tid == r || tid == d || InPlainScript(script, tid)
    {
      TidMapAt(Reserved(c, r, d) + table, tid);
      TidInChain(table, c, r, d, tid);
      if TidIn(table, tid) {
        var e :| e in table && e.tid == tid;
        PlainEntriesAreCalls(script, tid, e.transport);
      }
      if transport :| RegistersPlain(script, tid, transport) {
        PlainEntriesAreCalls(script, tid, transport);
      }
    }
  }
}
