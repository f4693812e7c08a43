/** Values that belong to neither transport (`src/net.rs`). */
module Net {
  import opened Prelude

  const CID_COUNT: nat := 0x1_0000_0000

  /** Connection ids are u32. */
  type CId = x: nat | x < CID_COUNT
  type MId = nat

  /** `std::any::TypeId` and `SocketAddr`: opaque values with equality. */
  type TypeId = nat
  type Addr = nat

  datatype Transport = TCP | UDP

  /** A boxed `dyn Any`: the type it was made from and its content. */
  datatype Msg = Msg(tid: TypeId, content: seq<byte>)

  datatype Status =
    | Connected
    | Disconnected(msg: Msg)
    | Closed
    | Dropped(kind: ErrorKind)

  datatype ErasedNetMsg = ErasedNetMsg(cid: CId, time: Option<nat>, msg: Msg)

  datatype Config = Config(timeout: nat, maxConHandle: nat, maxMsgSize: nat)

  /** bincode, as far as the library relies on it: a serializer chosen by the
      message's own type and a deserializer chosen by the expected type. */
  datatype Serde = Serde(
    ser: Msg -> Option<seq<byte>>,
    deser: (TypeId, seq<byte>) -> Option<Msg>)

  /** What serde promises: the result has the type asked for, and what was
      serialized as a type is read back as the same value. */
  ghost predicate Faithful(serde: Serde) {
    && (forall t, b :: serde.deser(t, b).Some? ==> serde.deser(t, b).value.tid == t)
    && (forall m :: serde.ser(m).Some? ==> serde.deser(m.tid, serde.ser(m).value) == Some(m))
  }

  datatype CIdSpec = All | Nobody | Except(cid: CId) | Only(cid: CId) {
    predicate Matches(c: CId) {
      match this
      case All => true
      case Nobody => false
      case Except(o) => c != o
      case Only(o) => c == o
    }

    predicate Overlaps(other: CIdSpec) {
      match (this, other)
      case (Nobody, _) => false
      case (_, Nobody) => false
      case (All, _) => true
      case (_, All) => true
      case (Except(_), Except(_)) => true
      case (Only(o1), Only(o2)) => o1 == o2
      case (Only(only), Except(except)) => only != except
      case (Except(except), Only(only)) => only != except
    }
  }

  /** Two specifications overlap exactly when some u32 matches both. */
  lemma OverlapsExactly(a: CIdSpec, b: CIdSpec)
    ensures a.Overlaps(b) <==> exists cid: CId :: a.Matches(cid) && b.Matches(cid)
    ensures a.Overlaps(b) <==> b.Overlaps(a)
  {
    if a.Overlaps(b) {
      var cid: CId :=
        if a.Only? then a.cid
        else if b.Only? then b.cid
        else if !a.Matches(0) || !b.Matches(0) then
          (if !a.Matches(1) || !b.Matches(1) then 2 else 1)
        else 0;
      assert a.Matches(cid) && b.Matches(cid);
    }
  }
}
