/** Rebuilding a 32-bit millisecond stamp from its low half (`src/time.rs`). */
module Time {
  import opened Prelude

  /** u32 subtraction as a release build performs it. */
  function WrappingSub(a: nat, b: nat): (r: nat)
    requires a < U32 && b < U32
    ensures r < U32
  {
    if a >= b then a - b else a + U32 - b
  }

  /** The time that passed between `sent` and `now` on a clock modulo 2^32. */
  function Since(now: nat, sent: nat): nat
    requires now < U32 && sent < U32
  {
    WrappingSub(now, sent)
  }

  /** Whether the subtraction on the high half goes below zero, which a build
      with overflow checks turns into a panic. */
  predicate Underflows(now: nat, lsb: nat)
    requires now < U32 && lsb < U16
  {
    lsb > now % U16 && now - now % U16 < U16
  }

  function Reconstruct(now: nat, lsb: nat): (time: nat)
    requires now < U32 && lsb < U16
    ensures time < U32
  {
    var nowLsb := now % U16;
    var msb := now - nowLsb;
    var high := if lsb > nowLsb then WrappingSub(msb, U16) else msb;
    HighHalf(msb);
    high + lsb
  }

  /** A multiple of 2^16 below 2^32 leaves room for any low half. */
  lemma HighHalf(msb: nat)
    requires msb < U32 && msb % U16 == 0
    ensures msb + U16 <= U32
  {
    assert msb == msb / U16 * U16;
  }

  /** The rebuilt stamp is the one and only u32 with this low half that lies
      less than 65536 ms before `now`. */
  lemma ReconstructUnique(now: nat, lsb: nat, t: nat)
    requires now < U32 && lsb < U16 && t < U32
    ensures t == Reconstruct(now, lsb) <==> t % U16 == lsb && Since(now, t) < U16
  {
    var q := now / U16;
    assert now == q * U16 + now % U16;
    var u := t / U16;
    assert t == u * U16 + t % U16;
    var r := Reconstruct(now, lsb);
    if lsb > now % U16 {
      if q == 0 {
        assert r == 0xFFFF * U16 + lsb;
      } else {
        assert r == (q - 1) * U16 + lsb;
      }
    } else {
      assert r == q * U16 + lsb;
    }
  }

  /** Sending the low half alone loses nothing exactly within the 65536 ms window. */
  lemma ReconstructExact(now: nat, sent: nat)
    requires now < U32 && sent < U32
    ensures Reconstruct(now, sent % U16) == sent <==> Since(now, sent) < U16
  {
    ReconstructUnique(now, sent % U16, sent);
  }

  /** The documentation lets the high half be "the same, or 1 less": the plain
      subtraction can do that for every low half except during the first 65536 ms
      of each cycle of the clock. */
  lemma UnderflowExactly(now: nat, lsb: nat)
    requires now < U32 && lsb < U16
    ensures !Underflows(now, lsb) <==> now >= U16 || lsb <= now
    ensures !Underflows(now, lsb) <==> Reconstruct(now, lsb) <= now
  {
    assert now == now / U16 * U16 + now % U16;
    HighHalf(now - now % U16);
  }
}
