/** What the client and the server share when they receive: frames become messages
    and one connection is read until it has nothing more to give. */
module Inbound {
  import opened Prelude
  import opened Header
  import opened Net
  import opened MessageTable
  import opened Tcp

  /** What is fixed when a client or server is created. */
  datatype Setup = Setup(parts: MsgTableParts, serde: Serde, config: Config) {
    ghost predicate Sound() {
      parts.Shaped()
    }

    /** A server has a buffer for each type and looks for one at each id. */
    ghost predicate Complete() {
      Sound() && |parts.tidMap| == parts.MidCount()
    }

    function TcpSize(): nat {
      config.maxMsgSize + TCP_HEADER_LEN
    }

    function UdpSize(): nat {
      config.maxMsgSize + UDP_HEADER_LEN
    }

    /** The type of `m` is registered for `transport`, and `m` serializes. */
    predicate Over(m: Msg, transport: Transport)
      requires Sound()
    {
      parts.ValidTid(m.tid) && parts.transports[parts.tidMap[m.tid]] == transport && serde.ser(m).Some?
    }

    /** What is sent of `m`: the id of its type and its bytes. */
    function FrameOf(m: Msg): Frame
      requires parts.ValidTid(m.tid) && serde.ser(m).Some?
    {
      Frame(parts.tidMap[m.tid], serde.ser(m).value)
    }

    /** The id, transport and bytes a message is sent with, if its type is
        registered and it serializes. */
    function Route(m: Msg): (r: Option<(MId, Transport, seq<byte>)>)
      requires Sound()
      ensures r.Some? ==> parts.ValidTid(m.tid) && r.value.0 == parts.tidMap[m.tid] < parts.MidCount()
    {
      if parts.ValidTid(m.tid) && serde.ser(m).Some? then
        Some((parts.tidMap[m.tid], parts.transports[parts.tidMap[m.tid]], serde.ser(m).value))
      else None
    }

    /** The message in a payload. `valid_mid` lets the number of ids itself
        through, and indexing the deserializers with it panics. */
    function Decode(mid: MId, bytes: seq<byte>): (r: Outcome<Io<Msg>>)
      ensures r.Returned? && r.value.Ok? ==> mid < |parts.deser|
    {
      if !parts.ValidMid(mid) then Returned(Err(InvalidData))
      else if mid >= |parts.deser| then Panicked
      else match serde.deser(parts.deser[mid].tid, bytes)
        case None => Returned(Err(InvalidData))
        case Some(m) => Returned(Ok(m))
    }
  }

  lemma RouteIs(w: Setup, m: Msg, transport: Transport)
    requires w.Sound()
    ensures w.Over(m, transport) ==> w.Route(m) == Some((w.FrameOf(m).mid, transport, w.FrameOf(m).payload))
    ensures w.Route(m).Some? && w.Route(m).value.1 == transport ==> w.Over(m, transport)
  {
  }

  /** The one id that panics: the number of ids. `valid_mid` admits it, and nothing is
      at that index; every id above is refused, every id below has a deserializer. */
  lemma DecodePanicsExactly(w: Setup, mid: MId, bytes: seq<byte>)
    requires w.Sound()
    ensures w.Decode(mid, bytes).Panicked? <==> mid == w.parts.MidCount()
    ensures mid > w.parts.MidCount() ==> w.Decode(mid, bytes) == Returned(Err(InvalidData))
  {
  }

  datatype Letter = Letter(mid: MId, msg: ErasedNetMsg)

  /** `recv_tcp`: the next frame as a message from `cid`. */
  function RecvMsgOn(w: Setup, cid: CId, s: Socket): (r: (Outcome<Io<Letter>>, Socket))
    ensures r.0.Returned? && r.0.value.Ok? ==> r.0.value.value.mid < |w.parts.deser| && |Upcoming(r.1)| < |Upcoming(s)|
  {
    var (r, t) := RecvOn(w.TcpSize(), s);
    match r
    case Err(kind) => (Returned(Err(kind)), t)
    case Ok(f) =>
      match w.Decode(f.mid, f.payload)
      case Panicked => (Panicked, t)
      case Returned(Err(kind)) => (Returned(Err(kind)), t)
      case Returned(Ok(m)) => (Returned(Ok(Letter(f.mid, ErasedNetMsg(cid, None, m)))), t)
  }

  /** Every letter has a buffer. */
  ghost predicate Below(got: seq<Letter>, n: nat) {
    forall l :: l in got ==> l.mid < n
  }

  lemma BelowMore(got: seq<Letter>, l: Letter, n: nat)
    ensures Below(got + [l], n) <==> Below(got, n) && l.mid < n
    ensures Below([], n)
  {
    if Below(got + [l], n) {
      forall k | k in got ensures k.mid < n {
        assert k in got + [l];
      }
      assert l in got + [l];
    }
  }

  /** Letters of one connection, without its disconnect message. */
  ghost predicate FromTcp(got: seq<Letter>, cid: CId) {
    forall l :: l in got ==> l.mid != DISCONNECT_TYPE_MID && l.msg.cid == cid && l.msg.time == None
  }

  /** One connection after it was read dry: the letters it gave, and the status that
      ended it, if something did. */
  datatype Drained = Drained(sock: Socket, got: seq<Letter>, end: Option<Status>) {
    /** A graceful disconnect counts as a message. */
    function Count(): nat {
      |got| + if end.Some? && end.value.Disconnected? then 1 else 0
    }
  }

  /** Reading until `WouldBlock`, an error or a disconnect message. */
  function Drain(w: Setup, cid: CId, s: Socket): (r: Outcome<Drained>)
    ensures r.Returned? ==> Below(r.value.got, |w.parts.deser|) && FromTcp(r.value.got, cid)
    ensures r.Returned? ==> r.value.sock.out == s.out && r.value.sock.peer == s.peer && r.value.sock.feed.sent == s.feed.sent
    decreases |Upcoming(s)|
  {
    var (o, t) := RecvMsgOn(w, cid, s);
    match o
    case Panicked => Panicked
    case Returned(Err(kind)) =>
      Returned(Drained(t, [], if kind == WouldBlock then None else Some(Dropped(kind))))
    case Returned(Ok(l)) =>
      if l.mid == DISCONNECT_TYPE_MID then Returned(Drained(t, [], Some(Disconnected(l.msg.msg))))
      else
        var rest :- Drain(w, cid, t);
        Returned(rest.(got := [l] + rest.got))
  }

  lemma {:induction false} DrainReads(w: Setup, cid: CId, s: Socket)
    ensures Drain(w, cid, s).Returned? ==> OnlyRead(s, Drain(w, cid, s).value.sock)
    decreases |Upcoming(s)|
  {
    var (o, t) := RecvMsgOn(w, cid, s);
    RecvReads(w.TcpSize(), s);
    if o.Returned? && o.value.Ok? && o.value.value.mid != DISCONNECT_TYPE_MID {
      DrainReads(w, cid, t);
    }
    hide RecvOn;
  }

  /** What was got before comes first. */
  function After(got: seq<Letter>, r: Outcome<Drained>): Outcome<Drained> {
    match r
    case Panicked => Panicked
    case Returned(d) => Returned(d.(got := got + d.got))
  }

  /** One turn of the loop that reads a connection. */
  lemma DrainStep(w: Setup, cid: CId, s: Socket, got: seq<Letter>)
    ensures var (o, t) := RecvMsgOn(w, cid, s);
            After(got, Drain(w, cid, s)) ==
            match o
            case Panicked => Panicked
            case Returned(Err(kind)) => Returned(Drained(t, got, if kind == WouldBlock then None else Some(Dropped(kind))))
            case Returned(Ok(l)) =>
              if l.mid == DISCONNECT_TYPE_MID then Returned(Drained(t, got, Some(Disconnected(l.msg.msg))))
              else After(got + [l], Drain(w, cid, t))
  {
    Units(got);
    var (o, t) := RecvMsgOn(w, cid, s);
    if o.Returned? && o.value.Ok? && Drain(w, cid, t).Returned? {
      Assoc(got, [o.value.value], Drain(w, cid, t).value.got);
    }
  }

  lemma AfterNothing(r: Outcome<Drained>)
    ensures After([], r) == r
  {
    if r.Returned? {
      Units(r.value.got);
    }
  }

  // ------------------------------------------------------------------- buffers

  type Buffers = seq<seq<ErasedNetMsg>>

  function Push(b: Buffers, l: Letter): (r: Buffers)
    requires l.mid < |b|
    ensures |r| == |b|
  {
    b[l.mid := b[l.mid] + [l.msg]]
  }

  ghost function PushAll(b: Buffers, got: seq<Letter>): (r: Buffers)
    requires Below(got, |b|)
    ensures |r| == |b|
    decreases |got|
  {
    if got == [] then b else PushAll(Push(b, got[0]), got[1..])
  }

  lemma PushNothing(b: Buffers)
    ensures PushAll(b, []) == b
  {
  }

  function OfMid(got: seq<Letter>, mid: MId): seq<ErasedNetMsg> {
    if got == [] then []
    else (if got[0].mid == mid then [got[0].msg] else []) + OfMid(got[1..], mid)
  }

  function Total(b: Buffers): nat {
    if b == [] then 0 else |b[0]| + Total(b[1..])
  }

  /** Each buffer keeps what it held, in order, and gets its own letters in the
      order they came. */
  lemma {:induction false} PushAllAppends(b: Buffers, got: seq<Letter>, mid: MId)
    requires Below(got, |b|)
    requires mid < |b|
    ensures PushAll(b, got)[mid] == b[mid] + OfMid(got, mid)
    decreases |got|
  {
    if got == [] {
      Units(b[mid]);
    } else {
      PushAllAppends(Push(b, got[0]), got[1..], mid);
      var mine := if got[0].mid == mid then [got[0].msg] else [];
      Assoc(b[mid], mine, OfMid(got[1..], mid));
      Units(b[mid]);
    }
  }

  lemma {:induction false} PushAllLast(b: Buffers, got: seq<Letter>, l: Letter)
    requires Below(got, |b|)
    requires l.mid < |b|
    ensures Below(got + [l], |b|) && PushAll(b, got + [l]) == Push(PushAll(b, got), l)
  {
    BelowMore(got, l, |b|);
    PushAllSplit(b, got, [l]);
    assert PushAll(PushAll(b, got), [l]) == PushAll(Push(PushAll(b, got), l), []);
  }

  lemma {:induction false} TotalPush(b: Buffers, l: Letter)
    requires l.mid < |b|
    ensures Total(Push(b, l)) == Total(b) + 1
    decreases |b|
  {
    if l.mid == 0 {
      assert Push(b, l)[1..] == b[1..];
    } else {
      var down := l.(mid := l.mid - 1);
      TotalPush(b[1..], down);
      assert Push(b, l)[1..] == Push(b[1..], down);
    }
  }

  /** No letter is lost or kept twice. */
  lemma {:induction false} TotalPushAll(b: Buffers, got: seq<Letter>)
    requires Below(got, |b|)
    ensures Total(PushAll(b, got)) == Total(b) + |got|
    decreases |got|
  {
    if got != [] {
      TotalPush(b, got[0]);
      TotalPushAll(Push(b, got[0]), got[1..]);
    }
  }

  lemma {:induction false} PushAllSplit(b: Buffers, got: seq<Letter>, more: seq<Letter>)
    requires Below(got, |b|) && Below(more, |b|)
    ensures Below(got + more, |b|) && PushAll(b, got + more) == PushAll(PushAll(b, got), more)
    decreases |got|
  {
    if got == [] {
      Units(more);
    } else {
      assert (got + more)[0] == got[0] && (got + more)[1..] == got[1..] + more;
      PushAllSplit(Push(b, got[0]), got[1..], more);
    }
  }
}
