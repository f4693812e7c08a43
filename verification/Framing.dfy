/** What `send` and `recv` mean together: sequences of frames survive the stream. */
module Framing {
  import opened Prelude
  import opened Header
  import opened Tcp

  /** The sizes a peer with a buffer of `size` bytes can send and be understood. */
  predicate Fits(size: nat, f: Frame) {
    f.mid < U16 && |f.payload| < U16 && |f.payload| + TCP_HEADER_LEN <= size
  }

  predicate AllFit(size: nat, fs: seq<Frame>) {
    forall i :: 0 <= i < |fs| ==> Fits(size, fs[i])
  }

  function EncodeAll(fs: seq<Frame>): seq<byte> {
    if fs == [] then [] else Encode(fs[0]) + EncodeAll(fs[1..])
  }

  lemma {:induction false} EncodeAllAppend(fs: seq<Frame>, gs: seq<Frame>)
    ensures EncodeAll(fs + gs) == EncodeAll(fs) + EncodeAll(gs)
  {
    if fs == [] {
      assert fs + gs == gs;
    } else {
      EncodeAllAppend(fs[1..], gs);
      assert (fs + gs)[0] == fs[0] && (fs + gs)[1..] == fs[1..] + gs;
      var a, b, c := Encode(fs[0]), EncodeAll(fs[1..]), EncodeAll(gs);
      Assoc(a, b, c);
    }
  }

  lemma {:induction false} HeaderInFront(f: Frame, rest: seq<byte>)
    requires f.mid < U16 && |f.payload| < U16
    ensures TcpHeaderFromBytes((Encode(f) + rest)[..TCP_HEADER_LEN]) == TcpHeader(f.mid, |f.payload|)
    ensures (Encode(f) + rest)[..|Encode(f)|][TCP_HEADER_LEN..] == f.payload
    ensures (Encode(f) + rest)[|Encode(f)|..] == rest
  {
    var h := TcpHeader(f.mid, |f.payload|);
    TcpHeaderRoundTrip(h);
    assert (Encode(f) + rest)[..TCP_HEADER_LEN] == h.ToBytes();
  }

  /** No two sequences of frames look the same on the wire. */
  lemma {:induction false} EncodeAllInjective(fs: seq<Frame>, gs: seq<Frame>)
    requires forall f :: f in fs || f in gs ==> f.mid < U16 && |f.payload| < U16
    requires EncodeAll(fs) == EncodeAll(gs)
    ensures fs == gs
  {
    if fs != [] && gs != [] {
      assert fs[0] in fs && gs[0] in gs;
      HeaderInFront(fs[0], EncodeAll(fs[1..]));
      HeaderInFront(gs[0], EncodeAll(gs[1..]));
      EncodeAllInjective(fs[1..], gs[1..]);
      assert fs == [fs[0]] + fs[1..] && gs == [gs[0]] + gs[1..];
    }
  }

  /** What was written so far determines the frames it consists of: more bytes only add
      frames behind them. */
  lemma {:induction false} PrefixFree(fs: seq<Frame>, gs: seq<Frame>)
    requires forall f :: f in fs || f in gs ==> f.mid < U16 && |f.payload| < U16
    requires EncodeAll(fs) <= EncodeAll(gs)
    ensures fs <= gs
  {
    if fs != [] {
      var tail := EncodeAll(gs)[|EncodeAll(fs)|..];
      assert fs[0] in fs && gs != [] && gs[0] in gs;
      Assoc(Encode(fs[0]), EncodeAll(fs[1..]), tail);
      assert EncodeAll(gs) == Encode(fs[0]) + (EncodeAll(fs[1..]) + tail);
      HeaderInFront(fs[0], EncodeAll(fs[1..]) + tail);
      HeaderInFront(gs[0], EncodeAll(gs[1..]));
      PrefixFree(fs[1..], gs[1..]);
      HeadTail(fs);
      HeadTail(gs);
    }
  }

  /** Whether the coming `recv` would see the header of `f` but, when it reads, not all of `f`. */
  predicate Splits(s: Socket, f: Frame) {
    s.feed.fault.None? && Avail(Arrive(s)) >= TCP_HEADER_LEN && Readable(Arrive(Arrive(s))) < |Encode(f)|
  }

  /** A `recv` at the start of a frame: it yields exactly that frame, or it fails
      and moves nothing, unless the frame is split, and then the stream is left in
      the middle of the frame. */
  lemma RecvAtFrame(size: nat, s: Socket, f: Frame, rest: seq<byte>)
    requires Upcoming(s) == Encode(f) + rest && Fits(size, f)
    ensures var (r, t) := RecvOn(size, s);
            var waiting := s.feed.fault.Some? || Avail(Arrive(s)) < TCP_HEADER_LEN;
            && (waiting ==> r.Err? && t == Arrive(s) && Upcoming(t) == Upcoming(s))
            && (!waiting && !Splits(s, f) ==>
                  r == Ok(f) && t == Arrive(Arrive(s)).(pos := s.pos + |Encode(f)|) && Upcoming(t) == rest)
            && (Splits(s, f) ==>
                  r.Err? && s.pos + TCP_HEADER_LEN <= t.pos < s.pos + |Encode(f)|)
    ensures var (r, t) := RecvOn(size, s);
            !Splits(s, f) <==> t.pos == s.pos || t.pos == s.pos + |Encode(f)|
  {
    HeaderInFront(f, rest);
    var s1, s2 := Arrive(s), Arrive(Arrive(s));
    assert Upcoming(s1) == Upcoming(s) == Upcoming(s2);
    assert s.pos <= |s.feed.sent|;
  }

  /** The socket reports no fault, four bytes are there as the coming `recv` peeks, and the
      rest of the `n` bytes comes before its read times out. */
  predicate InTime(s: Socket, n: nat) {
    && s.feed.fault.None? && Avail(Arrive(s)) >= TCP_HEADER_LEN
    && (s.feed.timely || Avail(Arrive(Arrive(s))) >= n)
  }

  /** A blocking `recv` at a frame the peer wrote completely yields that frame exactly
      when it comes in time; with one to three bytes as it peeks it reports
      `WouldBlock`, blocking or not. */
  lemma {:induction false} BlockingRecv(size: nat, s: Socket, f: Frame, rest: seq<byte>)
    requires Upcoming(s) == Encode(f) + rest && Fits(size, f) && !s.nonblocking
    ensures RecvOn(size, s).0 == Ok(f) <==> InTime(s, |Encode(f)|)
  {
    RecvAtFrame(size, s, f, rest);
    assert Upcoming(Arrive(Arrive(s))) == Upcoming(s);
  }

  /** A split is not repaired by the rest of the frame arriving: the frame is lost
      and its tail is taken for a header. */
  lemma SplitLosesFrame()
    ensures exists s, f ::
              && Upcoming(s) == Encode(f) && Fits(64, f) && Splits(s, f)
              && RecvOn(64, s).0 == Err(WouldBlock)
              && var t := RecvOn(64, s).1;
                 Avail(t.(feed := t.feed.(visible := |t.feed.sent|))) == |f.payload|
                 && RecvOn(64, t.(feed := t.feed.(visible := |t.feed.sent|))).0 == Ok(Frame(7, []))
  {
    var f := Frame(3, [0, 7, 0, 0]);
    var s := Socket(0, Feed(Encode(f), 4, [], false, None, true), 0, [], 0, false, false, true);
    assert Upcoming(s) == Encode(f) + [];
    HeaderInFront(f, []);
    assert Splits(s, f);
    var t := RecvOn(64, s).1;
    assert t.pos == 4;
    var u := t.(feed := t.feed.(visible := |t.feed.sent|));
    assert Upcoming(u) == [0, 7, 0, 0];
    assert TcpHeaderFromBytes([0, 7, 0, 0]) == TcpHeader(7, 0) by {
      assert [0 as byte, 7, 0, 0][..2] == [0, 7] && [0 as byte, 7, 0, 0][2..] == [0, 0];
    }
    assert Upcoming(u)[..4] == [0, 7, 0, 0];
    assert RecvOn(64, u).0 == Ok(Frame(7, []));
  }

  // ---------------------------------------------------- one call on any stream

  /** How many of the unread bytes a `recv` can see as it peeks, and how many it can read
      behind that. */
  function Peeked(s: Socket): (n: nat)
    ensures n <= |Upcoming(s)|
  {
    Avail(Arrive(s))
  }

  function Reaches(s: Socket): (n: nat)
    ensures n <= |Upcoming(s)|
  {
    Readable(Arrive(Arrive(s)))
  }

  /** Less than a header is there, but more may come. */
  predicate Silent(s: Socket) {
    s.feed.fault.None? && Peeked(s) < TCP_HEADER_LEN && !(Peeked(s) == 0 && Ends(s, 0))
  }

  predicate Ended(s: Socket) {
    s.feed.fault.None? && Peeked(s) == 0 && Ends(s, 0)
  }

  predicate Headed(s: Socket) {
    s.feed.fault.None? && Peeked(s) >= TCP_HEADER_LEN
  }

  /** The size that the header in front announces. */
  function Announced(s: Socket): nat
    requires Headed(s)
  {
    TCP_HEADER_LEN + TcpHeaderFromBytes(Upcoming(s)[..TCP_HEADER_LEN]).len
  }

  /** More than fits the buffer is announced; or only a part of it is there; or all of it. */
  predicate Overlong(size: nat, s: Socket) {
    Headed(s) && Announced(s) > size
  }

  predicate Torn(size: nat, s: Socket) {
    Headed(s) && Reaches(s) < Announced(s) <= size
  }

  predicate Whole(size: nat, s: Socket) {
    Headed(s) && Announced(s) <= Min(size, Reaches(s))
  }

  /** The frame in front. */
  function Front(s: Socket): Frame
    requires Headed(s) && Announced(s) <= |Upcoming(s)|
  {
    Frame(TcpHeaderFromBytes(Upcoming(s)[..TCP_HEADER_LEN]).mid, Upcoming(s)[TCP_HEADER_LEN..Announced(s)])
  }

  /** The error that a `recv` reports which is more than "not yet". */
  predicate Fails(size: nat, s: Socket, kind: ErrorKind) {
    || (s.feed.fault == Some(kind) && kind != WouldBlock)
    || (Ended(s) && kind == ConnectionAborted)
    || (Overlong(size, s) && kind == if s.shutFails then NotConnected else InvalidData)
    || (Torn(size, s) && Ends(s, Reaches(s)) && kind == UnexpectedEof)
  }

  /** A `recv` on any stream whatever: it yields the frame in front exactly if all of it is
      there and fits, it shuts the stream exactly if too much is announced, it loses the
      part of a torn frame that it read, and it fails for good exactly if the socket
      reports so, the stream has ended or ends in the frame, or too much is announced. */
  lemma {:induction false} RecvMeets(size: nat, s: Socket)
    ensures var (r, t) := RecvOn(size, s);
            && (r.Ok? <==> Whole(size, s)) && (r.Ok? ==> r.value == Front(s))
            && (r.Err? && r.kind != WouldBlock <==> exists kind :: Fails(size, s, kind))
            && (forall kind :: Fails(size, s, kind) ==> r == Err(kind))
            && t.pos == s.pos + (if Whole(size, s) then Announced(s) else if Torn(size, s) then Reaches(s) else 0)
            && t.shut == (s.shut || (Overlong(size, s) && !s.shutFails))
  {
    hide TcpHeaderFromBytes;
    var (r, t) := RecvOn(size, s);
    var s1, s2 := Arrive(s), Arrive(Arrive(s));
    assert Upcoming(s1) == Upcoming(s) == Upcoming(s2);
    if Whole(size, s) {
      assert Upcoming(s)[..Announced(s)][TCP_HEADER_LEN..] == Upcoming(s)[TCP_HEADER_LEN..Announced(s)];
    }
    if r.Err? && r.kind != WouldBlock {
      assert Fails(size, s, r.kind);
    }
  }

  // ------------------------------------------------------- many calls in a row

  /** A stream of `n` bytes that starts with frames `fs` is never cut inside a payload. */
  predicate WholeCut(fs: seq<Frame>, n: nat)
    decreases fs
  {
    n < TCP_HEADER_LEN ||
    (fs != [] && n >= |Encode(fs[0])| && WholeCut(fs[1..], n - |Encode(fs[0])|))
  }

  /** The number of unread bytes that have arrived once `level` bytes have. */
  function Reach(s: Socket, level: nat): nat {
    Max(0, Min(level, |s.feed.sent|) - s.pos)
  }

  /** At every coming system call, a visible header comes with its payload. */
  ghost predicate WholeFrames(s: Socket, fs: seq<Frame>) {
    && WholeCut(fs, Reach(s, s.feed.visible))
    && forall i :: 0 <= i < |s.feed.arrivals| ==> WholeCut(fs, Reach(s, s.feed.arrivals[i]))
  }

  /** The stream stands at the start of `fs`, and either reads wait or headers come
      with their payloads. The socket may report faults. */
  ghost predicate Ready(size: nat, s: Socket, fs: seq<Frame>) {
    && s.pos <= |s.feed.sent| && Upcoming(s) == EncodeAll(fs) && AllFit(size, fs)
    && (Waits(s) || WholeFrames(s, fs))
  }

  /** All the peer wrote can be read. */
  predicate Arrived(s: Socket) {
    s.feed.fault.None? && Avail(s) == |Upcoming(s)|
  }

  lemma ArriveReady(size: nat, s: Socket, fs: seq<Frame>)
    requires Ready(size, s, fs)
    ensures Ready(size, Arrive(s), fs)
    ensures Waits(s) || WholeCut(fs, Avail(Arrive(s)))
  {
    var t := Arrive(s);
    assert forall l: nat :: Reach(t, l) == Reach(s, l);
    if s.feed.arrivals != [] {
      assert t.feed.visible == s.feed.visible || t.feed.visible == s.feed.arrivals[0];
      assert forall i :: 0 <= i < |t.feed.arrivals| ==> t.feed.arrivals[i] == s.feed.arrivals[i + 1];
    }
  }

  lemma CutAfterFrame(fs: seq<Frame>, n: nat)
    requires fs != [] && WholeCut(fs, n)
    ensures WholeCut(fs[1..], Max(0, n - |Encode(fs[0])|))
  {
  }

  lemma {:induction false} CutAfterFrames(fs: seq<Frame>, k: nat, n: nat)
    requires k <= |fs| && WholeCut(fs, n)
    ensures WholeCut(fs[k..], Max(0, n - |EncodeAll(fs[..k])|))
    decreases k
  {
    if k > 0 {
      CutAfterFrame(fs, n);
      CutAfterFrames(fs[1..], k - 1, Max(0, n - |Encode(fs[0])|));
      assert fs[1..][k - 1..] == fs[k..] && fs[..k][0] == fs[0] && fs[..k][1..] == fs[1..][..k - 1];
    }
  }

  lemma {:induction false} ReadyAfterFrame(size: nat, s: Socket, t: Socket, fs: seq<Frame>)
    requires Ready(size, s, fs) && fs != []
    requires t == s.(pos := s.pos + |Encode(fs[0])|)
    ensures Ready(size, t, fs[1..])
  {
    assert Upcoming(s) == Encode(fs[0]) + EncodeAll(fs[1..]);
    assert Upcoming(t) == Upcoming(s)[|Encode(fs[0])|..] == EncodeAll(fs[1..]);
    if !Waits(s) {
      forall l: nat | WholeCut(fs, Reach(s, l))
        ensures WholeCut(fs[1..], Reach(t, l))
      {
        CutAfterFrame(fs, Reach(s, l));
      }
    }
  }

  /** One call on a ready stream: the next frame when four bytes have arrived and the
      socket reports no fault, and otherwise a failure that moves nothing. */
  lemma RecvReady(size: nat, s: Socket, fs: seq<Frame>)
    requires Ready(size, s, fs)
    ensures var (r, t) := RecvOn(size, s);
            && (r.Ok? <==> s.feed.fault.None? && fs != [] && Avail(Arrive(s)) >= TCP_HEADER_LEN)
            && (r.Ok? ==> r.value == fs[0] && Ready(size, t, fs[1..]))
            && (r.Err? ==> t == Arrive(s) && Ready(size, t, fs))
            && (r.Err? ==> r.kind == if s.feed.fault.Some? then s.feed.fault.value
                                     else if Avail(t) == 0 && Ends(t, 0) then ConnectionAborted else WouldBlock)
  {
    var s1 := Arrive(s);
    var s2 := Arrive(s1);
    ArriveReady(size, s, fs);
    ArriveReady(size, s1, fs);
    if s.feed.fault.Some? {
    } else if fs == [] {
      assert Avail(s1) == 0;
    } else {
      var f, rest := fs[0], EncodeAll(fs[1..]);
      RecvAtFrame(size, s, f, rest);
      if Avail(s1) >= TCP_HEADER_LEN {
        assert !Splits(s, f) by {
          if !Waits(s) {
            assert WholeCut(fs, Avail(s2));
          }
        }
        ReadyAfterFrame(size, s2, RecvOn(size, s).1, fs);
      }
    }
  }

  lemma RecvArrived(size: nat, s: Socket, fs: seq<Frame>)
    requires Ready(size, s, fs) && Arrived(s)
    ensures RecvOn(size, s).0.Ok? <==> fs != []
    ensures Arrived(RecvOn(size, s).1)
  {
    RecvReady(size, s, fs);
    var s1 := Arrive(s);
    assert Upcoming(s1) == Upcoming(s) && Upcoming(Arrive(s1)) == Upcoming(s);
  }

  function FrameIn(r: Io<Frame>): seq<Frame> {
    if r.Ok? then [r.value] else []
  }

  /** `n` calls of `recv` and the frames they return. */
  ghost function Pump(size: nat, s: Socket, n: nat): (seq<Frame>, Socket)
    decreases n
  {
    if n == 0 then ([], s)
    else
      var (r, t) := RecvOn(size, s);
      var (got, u) := Pump(size, t, n - 1);
      (FrameIn(r) + got, u)
  }

  /** One more call puts what it returns in front. */
  lemma {:induction false} PumpStep(size: nat, s: Socket, n: nat, tail: seq<Frame>, rest: seq<Frame>)
    requires n > 0
    requires tail == Pump(size, RecvOn(size, s).1, n - 1).0 + rest
    ensures Pump(size, s, n).0 + rest == FrameIn(RecvOn(size, s).0) + tail
    ensures Pump(size, s, n).1 == Pump(size, RecvOn(size, s).1, n - 1).1
    ensures |Pump(size, s, n).0| == |FrameIn(RecvOn(size, s).0)| + |Pump(size, RecvOn(size, s).1, n - 1).0|
  {
    Assoc(FrameIn(RecvOn(size, s).0), Pump(size, RecvOn(size, s).1, n - 1).0, rest);
  }

  lemma RecvTail(size: nat, s: Socket, fs: seq<Frame>) returns (tail: seq<Frame>)
    requires Ready(size, s, fs)
    ensures FrameIn(RecvOn(size, s).0) + tail == fs && Ready(size, RecvOn(size, s).1, tail)
    ensures Arrived(s) ==> Arrived(RecvOn(size, s).1) && |FrameIn(RecvOn(size, s).0)| == Min(1, |fs|)
  {
    RecvReady(size, s, fs);
    if Arrived(s) {
      RecvArrived(size, s, fs);
    }
    if RecvOn(size, s).0.Ok? {
      tail := fs[1..];
      HeadTail(fs);
    } else {
      tail := fs;
      Units(fs);
    }
  }

  /** However the bytes of `fs` arrive, calling `recv` again and again yields the
      frames of `fs` in order, whole, with nothing skipped, and leaves the stream
      at the start of the first frame not yet returned. Once everything has
      arrived, each call returns a frame until none is left. */
  lemma {:induction false} PumpYieldsFrames(size: nat, s: Socket, fs: seq<Frame>, n: nat) returns (rest: seq<Frame>)
    requires Ready(size, s, fs)
    ensures Pump(size, s, n).0 + rest == fs
    ensures Ready(size, Pump(size, s, n).1, rest)
    ensures Arrived(s) ==> |Pump(size, s, n).0| == Min(n, |fs|)
    decreases n
  {
    hide RecvOn, EncodeAll, WholeCut, Encode, Arrive, Reach;
    if n == 0 {
      rest := fs;
      Units(fs);
    } else {
      var tail := RecvTail(size, s, fs);
      rest := PumpYieldsFrames(size, RecvOn(size, s).1, tail, n - 1);
      PumpStep(size, s, n, tail, rest);
    }
  }

  /** Sending frames on a stream with room appends their encoding and nothing else. */
  lemma {:induction false} SendsConcatenate(size: nat, s: Socket, fs: seq<Frame>)
    requires AllFit(size, fs) && !s.shut && s.room >= |EncodeAll(fs)|
    ensures var t := SendAll(size, s, fs);
            t.out == s.out + EncodeAll(fs) && t.room == s.room - |EncodeAll(fs)| && !t.shut
    decreases |fs|
  {
    if fs != [] {
      SendsConcatenate(size, SendOn(size, s, fs[0]).1, fs[1..]);
    }
  }

  ghost function SendAll(size: nat, s: Socket, fs: seq<Frame>): Socket
    decreases |fs|
  {
    if fs == [] then s else SendAll(size, SendOn(size, s, fs[0]).1, fs[1..])
  }

  /** The round trip over one connection: whatever one side sends, the other side
      has received after as many calls, under any chunking. */
  lemma {:induction false} RoundTrip(size: nat, a: Socket, b: Socket, fs: seq<Frame>, n: nat)
    requires AllFit(size, fs) && !a.shut && a.out == [] && a.room >= |EncodeAll(fs)|
    requires b.feed.sent == SendAll(size, a, fs).out && b.pos == 0
    requires Waits(b) || WholeFrames(b, fs)
    ensures Pump(size, b, n).0 <= fs
    ensures b.feed.fault.None? && b.feed.visible >= |b.feed.sent| && n >= |fs| ==> Pump(size, b, n).0 == fs
  {
    SendsConcatenate(size, a, fs);
    assert b.feed.sent[0..] == b.feed.sent == EncodeAll(fs);
    var rest := PumpYieldsFrames(size, b, fs, n);
  }
}
