/** One TCP connection (`src/tcp.rs`): length-prefixed frames over a byte stream. */
module Tcp {
  import opened Prelude
  import opened Header
  import opened Net

  // ------------------------------------------------------- the operating system

  /** The environment's half of a stream: the bytes the peer writes (`sent`), how
      many of them have arrived (`visible`), how far they will have arrived at
      each of the coming system calls (`arrivals`), whether the peer closes after
      its last byte, a fault the socket reports instead of data, and whether what
      was written arrives before a blocking read times out (`timely`). */
  datatype Feed = Feed(
    sent: seq<byte>,
    visible: nat,
    arrivals: seq<nat>,
    eof: bool,
    fault: Option<SocketError>,
    timely: bool)

  /** What a stream reports by itself; `InvalidData` is the library's own error. */
  type SocketError = k: ErrorKind | k != InvalidData witness WouldBlock

  /** A `TcpStream`: `pos` bytes were read, `out` was written, and the socket takes
      `room` more bytes before a write fails. */
  datatype Socket = Socket(
    peer: Addr,
    feed: Feed,
    pos: nat,
    out: seq<byte>,
    room: nat,
    shut: bool,
    shutFails: bool,
    nonblocking: bool)

  /** Data keeps arriving between any two system calls. */
  function Arrive(s: Socket): (t: Socket)
    ensures t == s.(feed := t.feed) && t.feed.sent == s.feed.sent && t.feed.eof == s.feed.eof && t.feed.fault == s.feed.fault && t.feed.timely == s.feed.timely
    ensures Avail(s) <= Avail(t)
  {
    var f := s.feed;
    if f.arrivals == [] then s
    else s.(feed := f.(visible := Max(f.visible, f.arrivals[0]), arrivals := f.arrivals[1..]))
  }

  /** The bytes of the peer that were not read yet, arrived or not. */
  function Upcoming(s: Socket): seq<byte> {
    if s.pos <= |s.feed.sent| then s.feed.sent[s.pos..] else []
  }

  /** How many unread bytes have arrived. */
  function Avail(s: Socket): (n: nat)
    ensures n <= |Upcoming(s)|
  {
    Max(0, Min(s.feed.visible, |s.feed.sent|) - s.pos)
  }

  /** Whether nothing will follow the first `n` unread bytes. */
  predicate Ends(s: Socket, n: nat) {
    s.shut || (s.feed.eof && n == |Upcoming(s)|)
  }

  /** Whether a read gets what the peer wrote before it gives up. */
  predicate Waits(s: Socket) {
    !s.nonblocking && s.feed.timely
  }

  /** How far a read that wants everything gets: a nonblocking one, or one that times
      out, takes what has arrived; another one waits for what the peer wrote. */
  function Readable(s: Socket): (n: nat)
    ensures n <= |Upcoming(s)|
  {
    if Waits(s) then |Upcoming(s)| else Avail(s)
  }

  function PeekOs(s: Socket, n: nat): (r: (Io<seq<byte>>, Socket))
    ensures r.0.Ok? ==> |r.0.value| <= n
  {
    var t := Arrive(s);
    if t.feed.fault.Some? then (Err(t.feed.fault.value), t)
    else if Avail(t) == 0 && !Ends(t, 0) then (Err(WouldBlock), t)
    else (Ok(Upcoming(t)[..Min(n, Avail(t))]), t)
  }

  /** `read_exact`: what was read before it gave up is gone from the stream. */
  function ReadExactOs(s: Socket, n: nat): (r: (Io<()>, seq<byte>, Socket))
    ensures |r.1| <= n && (r.0.Ok? ==> |r.1| == n)
  {
    var t := Arrive(s);
    var k := Readable(t);
    if k >= n then (Ok(()), Upcoming(t)[..n], t.(pos := t.pos + n))
    else (Err(if Ends(t, k) then UnexpectedEof else WouldBlock), Upcoming(t)[..k], t.(pos := t.pos + k))
  }

  /** `write_all`: what was written before it gave up stays written. */
  function WriteAllOs(s: Socket, b: seq<byte>): (Io<()>, Socket) {
    if s.shut then (Err(BrokenPipe), s)
    else if |b| <= s.room then (Ok(()), s.(out := s.out + b, room := s.room - |b|))
    else (Err(WouldBlock), s.(out := s.out + b[..s.room], room := 0))
  }

  function ShutdownOs(s: Socket): (Io<()>, Socket) {
    if s.shutFails then (Err(NotConnected), s) else (Ok(()), s.(shut := true))
  }

  // -------------------------------------------------------------------- frames

  datatype Frame = Frame(mid: MId, payload: seq<byte>)

  function Encode(f: Frame): (b: seq<byte>)
    ensures |b| == TCP_HEADER_LEN + |f.payload|
  {
    TcpHeader(f.mid, |f.payload|).ToBytes() + f.payload
  }

  /** What `send` does to the stream of a connection with a buffer of `size` bytes. */
  function SendOn(size: nat, s: Socket, f: Frame): (Io<()>, Socket) {
    if |f.payload| + TCP_HEADER_LEN > size then (Err(InvalidData), s) else WriteAllOs(s, Encode(f))
  }

  /** What `recv` does to the stream, in terms of the stream alone: a short header
      is left where it is, an oversized one closes the connection, and otherwise
      the frame is taken if it is there to the end. */
  function RecvOn(size: nat, s: Socket): (r: (Io<Frame>, Socket))
    ensures r.0.Ok? ==> |Upcoming(r.1)| == |Upcoming(s)| - TCP_HEADER_LEN - |r.0.value.payload|
    ensures r.1.out == s.out && r.1.room == s.room && r.1.peer == s.peer && r.1.feed.sent == s.feed.sent
  {
    var s1 := Arrive(s);
    if s1.feed.fault.Some? then (Err(s1.feed.fault.value), s1)
    else if Avail(s1) < TCP_HEADER_LEN then
      (Err(if Avail(s1) == 0 && Ends(s1, 0) then ConnectionAborted else WouldBlock), s1)
    else
      var h := TcpHeaderFromBytes(Upcoming(s1)[..TCP_HEADER_LEN]);
      var total := h.len + TCP_HEADER_LEN;
      if total > size then
        (Err(if s1.shutFails then NotConnected else InvalidData), s1.(shut := s1.shut || !s1.shutFails))
      else
        var s2 := Arrive(s1);
        var k := Readable(s2);
        if k >= total then
          (Ok(Frame(h.mid, Upcoming(s2)[..total][TCP_HEADER_LEN..])), s2.(pos := s2.pos + total))
        else
          (Err(if Ends(s2, k) then UnexpectedEof else WouldBlock), s2.(pos := s2.pos + k))
  }

  /** The same in terms of the three system calls the source makes. */
  function RecvCalls(size: nat, s: Socket): (Io<Frame>, Socket) {
    var (peeked, s1) := PeekOs(s, TCP_HEADER_LEN);
    if peeked.Err? then (Err(peeked.kind), s1)
    else if |peeked.value| == 0 then (Err(ConnectionAborted), s1)
    else if |peeked.value| < TCP_HEADER_LEN then (Err(WouldBlock), s1)
    else
      var h := TcpHeaderFromBytes(peeked.value);
      var total := h.len + TCP_HEADER_LEN;
      if total > size then
        var (closed, s2) := ShutdownOs(s1);
        (Err(if closed.Err? then closed.kind else InvalidData), s2)
      else
        var (done, data, s3) := ReadExactOs(s1, total);
        (if done.Err? then Err(done.kind) else Ok(Frame(h.mid, data[TCP_HEADER_LEN..])), s3)
  }

  /** Peeking at the header, then reading header and payload again, takes exactly
      the next frame: what `recv` does needs no more state than the stream. */
  lemma RecvCallsAgree(size: nat, s: Socket)
    ensures RecvCalls(size, s) == RecvOn(size, s)
  {
    hide Arrive, Upcoming, Avail, TcpHeaderFromBytes;
    var (peeked, s1) := PeekOs(s, TCP_HEADER_LEN);
    if peeked.Ok? && |peeked.value| == TCP_HEADER_LEN {
      assert peeked.value == Upcoming(s1)[..TCP_HEADER_LEN];
    }
  }

  /** What reading may change of a stream. */
  ghost predicate OnlyRead(s: Socket, t: Socket) {
    && t == s.(feed := t.feed, pos := t.pos, shut := t.shut)
    && t.feed == s.feed.(visible := t.feed.visible, arrivals := t.feed.arrivals)
    && s.pos <= t.pos && (s.shut ==> t.shut)
  }

  lemma RecvReads(size: nat, s: Socket)
    ensures OnlyRead(s, RecvOn(size, s).1)
  {
    hide TcpHeaderFromBytes;
  }

  method Fill(a: array<byte>, at: nat, b: seq<byte>)
    requires at + |b| <= a.Length
    modifies a
    ensures a[..at] == old(a[..at]) && a[at..at + |b|] == b && a[at + |b|..] == old(a[at + |b|..])
  {
    for i := 0 to |b|
      invariant a[at..at + i] == b[..i]
      invariant forall k :: 0 <= k < at || at + i <= k < a.Length ==> a[k] == old(a[k])
    {
      a[at + i] := b[i];
    }
  }

  /** A connection as the value Rust moves in and out of vectors and maps. */
  datatype Slot = Slot(buff: seq<byte>, sock: Socket)

  class TcpCon {
    /** Reused by every `recv`; its length fixes the largest message. */
    const buff: array<byte>
    var sock: Socket

    ghost predicate Valid() {
      buff.Length >= TCP_HEADER_LEN
    }

    constructor FromStream(s: Socket, maxMsgSize: nat)
      ensures Valid() && sock == s && buff.Length == maxMsgSize + TCP_HEADER_LEN && fresh(buff)
    {
      buff := new byte[maxMsgSize + TCP_HEADER_LEN];
      sock := s;
    }

    /** A mutable borrow of a connection that a vector or map owns. */
    constructor Borrow(slot: Slot)
      ensures buff[..] == slot.buff && sock == slot.sock && fresh(buff)
    {
      buff := new byte[|slot.buff|](i requires 0 <= i < |slot.buff| => slot.buff[i]);
      sock := slot.sock;
    }

    function Value(): (slot: Slot)
      reads this, buff
      ensures |slot.buff| == buff.Length && slot.sock == sock
    {
      Slot(buff[..], sock)
    }

    method Send(mid: MId, payload: seq<byte>) returns (r: Io<()>)
      modifies this`sock
      ensures (r, sock) == SendOn(buff.Length, old(sock), Frame(mid, payload))
    {
      var totalLen := |payload| + TCP_HEADER_LEN;
      var b := new byte[totalLen];
      if totalLen > buff.Length {
        return Err(InvalidData);
      }
      var hBytes := TcpHeader(mid, |payload|).ToBytes();
      Fill(b, 0, hBytes);
      Fill(b, TCP_HEADER_LEN, payload);
      assert b[..] == b[..TCP_HEADER_LEN] + b[TCP_HEADER_LEN..];
      assert b[..TCP_HEADER_LEN] == hBytes;
      var (res, s) := WriteAllOs(sock, b[..totalLen]);
      assert b[..totalLen] == Encode(Frame(mid, payload));
      sock := s;
      r := res;
    }

    method Recv() returns (r: Io<Frame>)
      requires Valid()
      modifies this`sock, buff
      ensures (r, sock) == RecvOn(buff.Length, old(sock))
    {
      RecvCallsAgree(buff.Length, sock);
      hide RecvOn, PeekOs, ReadExactOs, TcpHeaderFromBytes;
      var (peeked, s1) := PeekOs(sock, TCP_HEADER_LEN);
      sock := s1;
      if peeked.Err? {
        return Err(peeked.kind);
      }
      Fill(buff, 0, peeked.value);
      if |peeked.value| == 0 {
        return Err(ConnectionAborted);
      } else if |peeked.value| < TCP_HEADER_LEN {
        return Err(WouldBlock);
      }
      assert buff[..TCP_HEADER_LEN] == peeked.value;
      var header := TcpHeaderFromBytes(buff[..TCP_HEADER_LEN]);
      if header.len > buff.Length - TCP_HEADER_LEN {
        var (closed, s2) := ShutdownOs(sock);
        sock := s2;
        return Err(if closed.Err? then closed.kind else InvalidData);
      }
      var total := header.len + TCP_HEADER_LEN;
      var (done, data, s3) := ReadExactOs(sock, total);
      sock := s3;
      Fill(buff, 0, data);
      if done.Err? {
        return Err(done.kind);
      }
      assert buff[..total] == data;
      assert buff[TCP_HEADER_LEN..total] == data[TCP_HEADER_LEN..];
      r := Ok(Frame(header.mid, buff[TCP_HEADER_LEN..total]));
    }

    /** Flushing cannot fail on a `TcpStream`. */
    method Close() returns (r: Io<()>)
      modifies this`sock
      ensures (r, sock) == ShutdownOs(old(sock))
    {
      var (res, s) := ShutdownOs(sock);
      sock := s;
      r := res;
    }

    method SetNonblocking(nonblocking: bool)
      modifies this`sock
      ensures sock == old(sock).(nonblocking := nonblocking)
    {
      sock := sock.(nonblocking := nonblocking);
    }
  }
}
