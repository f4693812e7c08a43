/** Result types and sequence vocabulary shared by every module. */
module Prelude {

  type byte = x: int | 0 <= x < 256

  const U16: nat := 0x1_0000
  const U32: nat := 0x1_0000_0000

  datatype Option<+T> = None | Some(value: T)

  /** The kinds of `std::io::Error` the library creates or tells apart. */
  datatype ErrorKind =
    | WouldBlock
    | InvalidData
    | TimedOut
    | ConnectionAborted
    | UnexpectedEof
    | NotConnected
    | BrokenPipe
    | Other

  /** `io::Result`: an ordinary value the program inspects. */
  datatype Io<+T> = Ok(value: T) | Err(kind: ErrorKind)

  /** What becomes of a call: it returns, or it unwinds (an index out of
      bounds, an `unwrap` of nothing). `:-` passes a panic on to the caller. */
  datatype Outcome<+T> = Returned(value: T) | Panicked {
    predicate IsFailure() {
      Panicked?
    }

    function PropagateFailure<U>(): Outcome<U>
      requires Panicked?
    {
      Panicked
    }

    function Extract(): T
      requires Returned?
    {
      value
    }
  }

  function Min(a: int, b: int): int {
    if a <= b then a else b
  }

  function Max(a: int, b: int): int {
    if a <= b then b else a
  }

  ghost predicate NoDup<T>(s: seq<T>) {
    forall i, j :: 0 <= i < j < |s| ==> s[i] != s[j]
  }

  /** `Vec::remove` on an index that is in bounds. */
  function RemoveAt<T>(s: seq<T>, i: nat): (r: seq<T>)
    requires i < |s|
    ensures |r| == |s| - 1
    ensures forall k :: 0 <= k < i ==> r[k] == s[k]
    ensures forall k :: i <= k < |r| ==> r[k] == s[k + 1]
  {
    s[..i] + s[i + 1..]
  }

  lemma NoDupRemove<T>(s: seq<T>, i: nat)
    requires NoDup(s) && i < |s|
    ensures NoDup(RemoveAt(s, i)) && s[i] !in RemoveAt(s, i)
    ensures forall x :: x in RemoveAt(s, i) <==> x in s && x != s[i]
  {
    var r := RemoveAt(s, i);
    forall x | x in s && x != s[i]
      ensures x in r
    {
      var k :| 0 <= k < |s| && s[k] == x;
      assert r[if k < i then k else k - 1] == x;
    }
  }

  lemma NoDupTail<T>(s: seq<T>)
    requires NoDup(s) && s != []
    ensures NoDup(s[1..]) && s[0] !in s[1..]
  {
  }

  function Elements<T>(s: seq<T>): set<T> {
    set x | x in s
  }

  lemma ElementsHead<T>(s: seq<T>)
    requires s != []
    ensures Elements(s) == {s[0]} + Elements(s[1..])
  {
    HeadTail(s);
  }

  lemma NoDupHead<T>(s: seq<T>)
    requires s != []
    ensures NoDup(s) <==> s[0] !in s[1..] && NoDup(s[1..])
  {
    var t := s[1..];
    if s[0] !in t && NoDup(t) {
      forall i, j | 0 <= i < j < |s|
        ensures s[i] != s[j]
      {
        assert s[j] == t[j - 1] && s[j] in t;
        if i > 0 {
          assert s[i] == t[i - 1];
        }
      }
    }
  }

  /** A sequence covers as many elements as it is long exactly when none repeats. */
  lemma {:induction false} SetSize<T>(s: seq<T>)
    ensures |Elements(s)| <= |s|
    ensures |Elements(s)| == |s| <==> NoDup(s)
  {
    hide NoDup;
    if s == [] {
      assert Elements(s) == {};
      assert NoDup(s) by {
        NoDupNothing(s);
      }
    } else {
      var t := s[1..];
      SetSize(t);
      ElementsHead(s);
      NoDupHead(s);
      if s[0] in t {
        assert Elements(s) == Elements(t);
      }
    }
  }

  lemma NoDupNothing<T>(s: seq<T>)
    requires s == []
    ensures NoDup(s)
  {
  }

  function Sum<T>(f: T -> nat, s: seq<T>): nat {
    if s == [] then 0 else f(s[0]) + Sum(f, s[1..])
  }

  lemma {:induction false} SumRemove<T>(f: T -> nat, s: seq<T>, k: nat)
    requires k < |s|
    ensures Sum(f, s) == f(s[k]) + Sum(f, RemoveAt(s, k))
  {
    if k == 0 {
      assert RemoveAt(s, 0) == s[1..];
    } else {
      SumRemove(f, s[1..], k - 1);
      assert RemoveAt(s, k)[0] == s[0] && RemoveAt(s, k)[1..] == RemoveAt(s[1..], k - 1);
    }
  }

  lemma {:induction false} SumAnyOrder<T>(f: T -> nat, a: seq<T>, b: seq<T>)
    requires NoDup(a) && NoDup(b) && forall x :: x in a <==> x in b
    ensures Sum(f, a) == Sum(f, b)
    decreases |a|
  {
    Inhabited(a);
    Inhabited(b);
    if a != [] {
      assert a[0] in b;
      var k :| 0 <= k < |b| && b[k] == a[0];
      SumRemove(f, b, k);
      NoDupRemove(b, k);
      NoDupTail(a);
      HeadTail(a);
      assert forall x :: x in a <==> x == a[0] || x in a[1..];
      SumAnyOrder(f, a[1..], RemoveAt(b, k));
    }
  }

  lemma {:induction false} SumSame<T>(f: T -> nat, g: T -> nat, s: seq<T>)
    requires forall x :: x in s ==> f(x) == g(x)
    ensures Sum(f, s) == Sum(g, s)
  {
    if s != [] {
      SumSame(f, g, s[1..]);
    }
  }

  /** Nowhere smaller and no larger in sum: the same. */
  lemma {:induction false} Squeeze(a: seq<nat>, b: seq<nat>)
    requires |a| == |b| && forall k :: 0 <= k < |a| ==> a[k] >= b[k]
    ensures Sum((x: nat) => x, a) >= Sum((x: nat) => x, b)
    ensures Sum((x: nat) => x, a) == Sum((x: nat) => x, b) ==> a == b
  {
    if a != [] {
      Squeeze(a[1..], b[1..]);
      HeadTail(a);
      HeadTail(b);
    }
  }

  lemma Assoc<T>(a: seq<T>, b: seq<T>, c: seq<T>)
    ensures a + (b + c) == (a + b) + c
  {
  }

  lemma Units<T>(a: seq<T>)
    ensures a + [] == a == [] + a
  {
  }

  lemma HeadTail<T>(a: seq<T>)
    requires a != []
    ensures [a[0]] + a[1..] == a
  {
  }

  lemma Inhabited<T>(s: seq<T>)
    ensures s != [] ==> exists x :: x in s
  {
    if s != [] {
      assert s[0] in s;
    }
  }
}
