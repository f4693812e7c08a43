/** From a client's sends to the server's buffers, over whole runs. */
module EndToEnd {
  import opened Prelude
  import opened Header
  import opened Net
  import opened MessageTable
  import opened Tcp
  import opened Udp
  import opened Inbound
  import opened ServerModel
  import opened Lifecycle
  import opened Runs
  import opened Framing
  import Receiving
  import C = ClientModel

  // ------------------------------------------------------------ frames as messages

  /** A frame both tables know and that was serialized as its type. */
  predicate Proper(w: Setup, f: Frame) {
    var o := w.Decode(f.mid, f.payload);
    o.Returned? && o.value.Ok?
  }

  function MessageOf(w: Setup, f: Frame): Msg
    requires Proper(w, f)
  {
    w.Decode(f.mid, f.payload).value.value
  }

  /** A frame that becomes a message in a buffer. Any other frame ends the reading. */
  predicate Plain(w: Setup, f: Frame) {
    Proper(w, f) && f.mid != DISCONNECT_TYPE_MID
  }

  /** How it ends: a disconnect message gracefully, a frame that does not decode with
      the error `InvalidData`. */
  function EndOf(w: Setup, f: Frame): Status {
    if Proper(w, f) then Disconnected(MessageOf(w, f)) else Dropped(InvalidData)
  }

  function LetterOf(w: Setup, c: CId, f: Frame): Letter
    requires Plain(w, f)
  {
    Letter(f.mid, ErasedNetMsg(c, None, MessageOf(w, f)))
  }

  /** What one frame of `c` means for buffer `mid`. */
  function MessageIn(w: Setup, c: CId, f: Frame, mid: MId): seq<ErasedNetMsg> {
    if Plain(w, f) && f.mid == mid then [LetterOf(w, c, f).msg] else []
  }

  /** What one frame means for the disconnect queue. */
  function EndingIn(w: Setup, f: Frame): seq<Status> {
    if Plain(w, f) then [] else [EndOf(w, f)]
  }

  /** What frames of `c` mean for buffer `mid`; those that do not decode mean nothing. */
  function Messages(w: Setup, c: CId, fs: seq<Frame>, mid: MId): seq<ErasedNetMsg> {
    if fs == [] then [] else MessageIn(w, c, fs[0], mid) + Messages(w, c, fs[1..], mid)
  }

  /** What they mean for the disconnect queue. */
  function Endings(w: Setup, fs: seq<Frame>): seq<Status> {
    if fs == [] then [] else EndingIn(w, fs[0]) + Endings(w, fs[1..])
  }

  lemma {:induction false} MeaningConcat(w: Setup, c: CId, a: seq<Frame>, b: seq<Frame>, mid: MId)
    ensures Messages(w, c, a + b, mid) == Messages(w, c, a, mid) + Messages(w, c, b, mid)
    ensures Endings(w, a + b) == Endings(w, a) + Endings(w, b)
    decreases |a|
  {
    hide MessageIn, EndingIn;
    if a == [] {
      Units(b);
      Units(Messages(w, c, b, mid));
      Units(Endings(w, b));
    } else {
      assert (a + b)[0] == a[0] && (a + b)[1..] == a[1..] + b;
      MeaningConcat(w, c, a[1..], b, mid);
      Assoc(MessageIn(w, c, a[0], mid), Messages(w, c, a[1..], mid), Messages(w, c, b, mid));
      Assoc(EndingIn(w, a[0]), Endings(w, a[1..]), Endings(w, b));
    }
  }

  /** The statuses that frames cause; a socket reports any error but `InvalidData`. */
  function ByFrames(q: seq<Status>): seq<Status> {
    if q == [] then [] else (if q[0].Disconnected? || q[0] == Dropped(InvalidData) then [q[0]] else []) + ByFrames(q[1..])
  }

  lemma {:induction false} ByFramesOne(status: Status)
    ensures ByFrames([status]) == if status.Disconnected? || status == Dropped(InvalidData) then [status] else []
    ensures ByFrames([]) == []
  {
    assert [status][1..] == [];
  }

  // -------------------------------------------------------------- one connection

  /** Nothing is behind a frame that ends the reading. */
  predicate Sealed(w: Setup, fs: seq<Frame>) {
    forall i :: 0 <= i < |fs| - 1 ==> Plain(w, fs[i])
  }

  /** Reading took exactly the frames `done`, and nothing behind one that ends it. */
  ghost predicate Took(w: Setup, c: CId, d: Drained, done: seq<Frame>) {
    && Sealed(w, done)
    && (forall mid: MId :: OfMid(d.got, mid) == Messages(w, c, done, mid))
    && ByFrames(Receiving.Ending(d)) == Endings(w, done)
  }

  lemma {:induction false} ReadNothing(w: Setup, c: CId, s: Socket, end: Option<Status>)
    requires end.None? || (end.value.Dropped? && end.value.kind != InvalidData)
    ensures Took(w, c, Drained(s, [], end), [])
  {
    if end.Some? {
      ByFramesOne(end.value);
    }
  }

  lemma {:induction false} ReadLast(w: Setup, c: CId, s: Socket, f: Frame)
    requires !Plain(w, f)
    ensures Took(w, c, Drained(s, [], Some(EndOf(w, f))), [f])
  {
    ByFramesOne(EndOf(w, f));
    hide Proper, MessageOf;
    assert [f][1..] == [];
    forall mid: MId
      ensures Messages(w, c, [f], mid) == OfMid([], mid)
    {
      assert Messages(w, c, [f], mid) == [] + Messages(w, c, [], mid);
    }
    assert Endings(w, [f]) == [EndOf(w, f)] + Endings(w, []);
  }

  lemma {:induction false} ReadOneMore(w: Setup, c: CId, d: Drained, f: Frame, done: seq<Frame>)
    requires Plain(w, f) && Took(w, c, d, done)
    ensures Took(w, c, d.(got := [LetterOf(w, c, f)] + d.got), [f] + done)
  {
    hide Plain, MessageOf;
    var l := LetterOf(w, c, f);
    assert ([f] + done)[1..] == done && ([l] + d.got)[1..] == d.got;
    forall mid: MId
      ensures OfMid([l] + d.got, mid) == Messages(w, c, [f] + done, mid)
    {
      assert OfMid(d.got, mid) == Messages(w, c, done, mid);
    }
    Units(Endings(w, done));
  }

  /** Reading a ready stream dry takes whole frames off its front, in order, and makes
      of each exactly the message it is, or the end. If everything has arrived it takes
      everything, up to the first frame that ends the reading. */
  lemma {:induction false} DrainTakes(w: Setup, c: CId, s: Socket, fs: seq<Frame>) returns (n: nat)
    requires Ready(w.TcpSize(), s, fs) && Drain(w, c, s).Returned?
    ensures n <= |fs|
    ensures Took(w, c, Drain(w, c, s).value, fs[..n])
    ensures Ready(w.TcpSize(), Drain(w, c, s).value.sock, fs[n..])
    ensures Drain(w, c, s).value.sock.pos == s.pos + |EncodeAll(fs[..n])|
    ensures n == 0 <==> RecvOn(w.TcpSize(), s).0.Err?
    ensures |Drain(w, c, s).value.got| == if n > 0 && !Plain(w, fs[n - 1]) then n - 1 else n
    ensures Arrived(s) ==> n == |fs| || (n > 0 && !Plain(w, fs[n - 1]))
    decreases |Upcoming(s)|
  {
    hide Drain, Ready, RecvOn, Plain, LetterOf, EndOf, Encode, Took, Setup.Decode, Arrive, Avail, Ends, Arrived;
    RecvReady(w.TcpSize(), s, fs);
    if Arrived(s) {
      RecvArrived(w.TcpSize(), s, fs);
    }
    var (r, t) := RecvOn(w.TcpSize(), s);
    RecvIs(w, c, s);
    if r.Err? {
      n := 0;
      assert fs[..0] == [] && fs[0..] == fs;
      ArrivePos(s);
      ReadNothing(w, c, t, if r.kind == WouldBlock then None else Some(Dropped(r.kind)));
    } else {
      var f := fs[0];
      HeadTail(fs);
      RecvPos(w.TcpSize(), s, fs);
      EncodeOne(f);
      if !Plain(w, f) {
        n := 1;
        assert fs[..1] == [f];
        ReadLast(w, c, t, f);
      } else {
        var k := DrainTakes(w, c, t, fs[1..]);
        n := k + 1;
        assert fs[..n] == [f] + fs[1..][..k] && fs[n..] == fs[1..][k..];
        ReadOneMore(w, c, Drain(w, c, t).value, f, fs[1..][..k]);
        EncodeAllAppend([f], fs[1..][..k]);
      }
    }
  }

  lemma EncodeOne(f: Frame)
    ensures EncodeAll([f]) == Encode(f)
  {
    assert [f][1..] == [];
    Units(Encode(f));
  }

  lemma ArrivePos(s: Socket)
    ensures Arrive(s).pos == s.pos
  {
  }

  lemma {:induction false} RecvPos(size: nat, s: Socket, fs: seq<Frame>)
    requires Ready(size, s, fs) && RecvOn(size, s).0.Ok? && RecvOn(size, s).0.value == fs[0]
    ensures RecvOn(size, s).1.pos == s.pos + |Encode(fs[0])|
    ensures |Upcoming(RecvOn(size, s).1)| < |Upcoming(s)|
  {
    hide TcpHeaderFromBytes, WholeFrames, EncodeAll;
  }

  /** One step of reading a connection, by the frame that `recv` returns. */
  lemma {:induction false} RecvIs(w: Setup, c: CId, s: Socket)
    ensures var (r, t) := RecvOn(w.TcpSize(), s);
            && (r.Err? ==> Drain(w, c, s) == Returned(Drained(t, [], if r.kind == WouldBlock then None else Some(Dropped(r.kind)))))
            && (r.Ok? && w.Decode(r.value.mid, r.value.payload).Panicked? ==> Drain(w, c, s).Panicked?)
            && (r.Ok? && !Plain(w, r.value) && !w.Decode(r.value.mid, r.value.payload).Panicked? ==>
                  Drain(w, c, s) == Returned(Drained(t, [], Some(EndOf(w, r.value)))))
            && (r.Ok? && Plain(w, r.value) ==> Drain(w, c, s) == After([LetterOf(w, c, r.value)], Drain(w, c, t)))
  {
    hide RecvOn;
  }

  /** Frames that nothing ends are all plain. */
  lemma {:induction false} SealedPlain(w: Setup, fs: seq<Frame>)
    requires Sealed(w, fs) && Endings(w, fs) == []
    ensures forall i :: 0 <= i < |fs| ==> Plain(w, fs[i])
  {
    if fs != [] {
      assert fs == fs[..|fs| - 1] + [fs[|fs| - 1]];
      MeaningConcat(w, 0, fs[..|fs| - 1], [fs[|fs| - 1]], 0);
      assert Endings(w, [fs[|fs| - 1]]) == EndingIn(w, fs[|fs| - 1]) + Endings(w, []);
    }
  }

  // ------------------------------------------------------------- over whole runs

  /** What a buffer holds of the stream of `c`. */
  function FromStream(b: seq<ErasedNetMsg>, c: CId): seq<ErasedNetMsg> {
    if b == [] then [] else (if b[0].cid == c && b[0].time.None? then [b[0]] else []) + FromStream(b[1..], c)
  }

  lemma {:induction false} FromStreamConcat(a: seq<ErasedNetMsg>, b: seq<ErasedNetMsg>, c: CId)
    ensures FromStream(a + b, c) == FromStream(a, c) + FromStream(b, c)
    decreases |a|
  {
    if a == [] {
      Units(b);
      Units(FromStream(b, c));
    } else {
      assert (a + b)[0] == a[0] && (a + b)[1..] == a[1..] + b;
      FromStreamConcat(a[1..], b, c);
      Assoc(if a[0].cid == c && a[0].time.None? then [a[0]] else [], FromStream(a[1..], c), FromStream(b, c));
    }
  }

  /** New letters show exactly if they came over the stream of `c`. */
  lemma {:induction false} FromStreamLetters(got: seq<Letter>, mid: MId, c: CId, mine: bool)
    requires forall l :: l in got ==> if mine then l.msg.cid == c && l.msg.time.None? else l.msg.cid != c || l.msg.time.Some?
    ensures FromStream(OfMid(got, mid), c) == if mine then OfMid(got, mid) else []
    decreases |got|
  {
    if got != [] {
      assert got[0] in got && forall l :: l in got[1..] ==> l in got;
      FromStreamLetters(got[1..], mid, c, mine);
      if got[0].mid == mid {
        var m, rest := got[0].msg, OfMid(got[1..], mid);
        assert ([m] + rest)[0] == m && ([m] + rest)[1..] == rest;
      } else {
        Units(OfMid(got[1..], mid));
      }
    }
  }

  lemma {:induction false} ByFramesConcat(a: seq<Status>, b: seq<Status>)
    ensures ByFrames(a + b) == ByFrames(a) + ByFrames(b)
    decreases |a|
  {
    if a == [] {
      Units(b);
      Units(ByFrames(b));
    } else {
      assert (a + b)[0] == a[0] && (a + b)[1..] == a[1..] + b;
      ByFramesConcat(a[1..], b);
      Assoc(if a[0].Disconnected? || a[0] == Dropped(InvalidData) then [a[0]] else [], ByFrames(a[1..]), ByFrames(b));
    }
  }

  /** The stream of an id, live or retired. */
  function StreamOf(st: State, c: CId): Option<Socket> {
    if c in st.tcp then Some(st.tcp[c]) else if c in st.history.dropped then Some(st.history.dropped[c]) else None
  }

  /** The peer wrote the frames `all` behind the first `start` bytes, the server has
      read the first `k` of them, and the stream is in order. */
  ghost predicate Tracks(w: Setup, s: Socket, start: nat, all: seq<Frame>, k: nat) {
    && k <= |all| && start <= |s.feed.sent| && s.feed.sent[start..] == EncodeAll(all)
    && AllFit(w.TcpSize(), all)
    && s.pos == start + |EncodeAll(all[..k])|
    && Ready(w.TcpSize(), s, all[k..])
  }

  /** The contents of the buffers, and the entries of the queue that frames caused, when
      the observation began. */
  datatype Base = Base(buff: seq<seq<ErasedNetMsg>>, ends: seq<Status>)

  ghost function BaseOf(st: State, c: CId): (b: Base)
    ensures |b.buff| == |st.msgBuff|
  {
    Base(seq(|st.msgBuff|, i requires 0 <= i < |st.msgBuff| => FromStream(st.msgBuff[i], c)),
         ByFrames(Receiving.EntriesOf(st.history.queued, c)))
  }

  /** Since then exactly the frames `done` became messages and ends. */
  ghost predicate Holds(w: Setup, st: State, c: CId, base: Base, done: seq<Frame>) {
    && |st.msgBuff| == |base.buff|
    && (forall mid :: 0 <= mid < |base.buff| ==> FromStream(st.msgBuff[mid], c) == base.buff[mid] + Messages(w, c, done, mid))
    && ByFrames(Receiving.EntriesOf(st.history.queued, c)) == base.ends + Endings(w, done)
  }

  ghost predicate Followed(w: Setup, st: State, c: CId, start: nat, base: Base, all: seq<Frame>, k: nat) {
    && k <= |all| && (c in st.tcp || c in st.history.dropped)
    && Tracks(w, StreamOf(st, c).value, start, all, k)
    && Holds(w, st, c, base, all[..k])
  }

  /** `c` is followed, and at least the frames `least` were read. */
  ghost predicate Follows(w: Setup, st: State, c: CId, start: nat, base: Base, least: seq<Frame>) {
    exists all, k :: Followed(w, st, c, start, base, all, k) && least <= all[..k]
  }

  /** How many bytes behind `start` have arrived once `level` bytes have. */
  function LevelFrom(f: Feed, start: nat, level: nat): nat {
    Max(0, Min(level, |f.sent|) - start)
  }

  /** What is asked of the peer and the network, wherever the reader stands: behind the
      first `start` bytes the peer wrote the frames `all`, whatever is in them, and no
      level the stream is or will be at cuts a payload that follows a visible header. */
  ghost predicate Writes(w: Setup, f: Feed, start: nat, all: seq<Frame>) {
    && start <= |f.sent| && f.sent[start..] == EncodeAll(all)
    && AllFit(w.TcpSize(), all)
    && WholeCut(all, LevelFrom(f, start, f.visible))
    && forall i :: 0 <= i < |f.arrivals| ==> WholeCut(all, LevelFrom(f, start, f.arrivals[i]))
  }

  /** The peer of `c` goes on writing whole frames, and headers come with payloads. */
  ghost predicate Orderly(w: Setup, c: CId, start: nat, op: Op) {
    && !op.Clear?
    && (op.World? && c in op.after.tcp ==> exists all :: Writes(w, op.after.tcp[c].feed, start, all))
  }

  /** A reader at a frame boundary of such a stream is in order. */
  lemma {:induction false} WritesTracks(w: Setup, s: Socket, start: nat, all: seq<Frame>, k: nat)
    requires Writes(w, s.feed, start, all) && k <= |all| && s.pos == start + |EncodeAll(all[..k])|
    ensures Tracks(w, s, start, all, k)
  {
    hide EncodeAll, WholeCut, Fits;
    var n := |EncodeAll(all[..k])|;
    CutFront(all, k);
    assert all == all[..k] + all[k..];
    EncodeAllAppend(all[..k], all[k..]);
    assert s.feed.sent[start..][n..] == s.feed.sent[s.pos..] == EncodeAll(all[k..]);
    forall l: nat | WholeCut(all, LevelFrom(s.feed, start, l))
      ensures WholeCut(all[k..], Reach(s, l))
    {
      CutAfterFrames(all, k, LevelFrom(s.feed, start, l));
    }
  }

  /** Moves that leave everything about `c` as it is, except that its stream may be
      written to, shut or retired. */
  ghost predicate Aside(st: State, st1: State, c: CId) {
    && StreamOf(st, c).Some? && StreamOf(st1, c).Some?
    && (var s, t := StreamOf(st, c).value, StreamOf(st1, c).value;
        t == s.(out := t.out, room := t.room, shut := t.shut))
    && |st1.msgBuff| == |st.msgBuff|
    && (forall mid :: 0 <= mid < |st.msgBuff| ==> FromStream(st1.msgBuff[mid], c) == FromStream(st.msgBuff[mid], c))
    && ByFrames(Receiving.EntriesOf(st1.history.queued, c)) == ByFrames(Receiving.EntriesOf(st.history.queued, c))
  }

  lemma {:induction false} TracksSame(w: Setup, s: Socket, t: Socket, start: nat, all: seq<Frame>, k: nat)
    requires t == s.(out := t.out, room := t.room, shut := t.shut) && Tracks(w, s, start, all, k)
    ensures Tracks(w, t, start, all, k)
  {
    hide EncodeAll, WholeCut;
    assert forall l: nat :: Reach(t, l) == Reach(s, l);
  }

  lemma AsideFollows(w: Setup, st: State, st1: State, c: CId, start: nat, base: Base, least: seq<Frame>)
    requires Follows(w, st, c, start, base, least) && Aside(st, st1, c)
    ensures Follows(w, st1, c, start, base, least)
  {
    hide Tracks, FromStream, ByFrames, Messages, Endings;
    var all, k :| Followed(w, st, c, start, base, all, k) && least <= all[..k];
    TracksSame(w, StreamOf(st, c).value, StreamOf(st1, c).value, start, all, k);
    assert Followed(w, st1, c, start, base, all, k);
  }

  // --------------------------------------------------------------- the stream itself

  lemma TakeTracks(w: Setup, c: CId, s: Socket, start: nat, all: seq<Frame>, k: nat) returns (m: nat)
    requires Tracks(w, s, start, all, k) && Drain(w, c, s).Returned?
    ensures k <= m <= |all|
    ensures m == k <==> RecvOn(w.TcpSize(), s).0.Err?
    ensures Arrived(s) ==> m == |all| || (m > k && !Plain(w, all[m - 1]))
    ensures Tracks(w, Drain(w, c, s).value.sock, start, all, m)
    ensures Took(w, c, Drain(w, c, s).value, all[k..m])
  {
    hide *;
    TracksReady(w, s, start, all, k);
    var n := DrainTakes(w, c, s, all[k..]);
    m := k + n;
    DrainReads(w, c, s);
    CutAt(all, k, n);
    TracksOn(w, s, Drain(w, c, s).value.sock, start, all, k, m);
  }

  lemma TracksReady(w: Setup, s: Socket, start: nat, all: seq<Frame>, k: nat)
    requires Tracks(w, s, start, all, k)
    ensures k <= |all| && Ready(w.TcpSize(), s, all[k..])
  {
  }

  lemma CutAt(all: seq<Frame>, k: nat, n: nat)
    requires k + n <= |all|
    ensures all[k..][..n] == all[k..k + n] && all[k..][n..] == all[k + n..]
    ensures |EncodeAll(all[..k + n])| == |EncodeAll(all[..k])| + |EncodeAll(all[k..k + n])|
  {
    assert all[..k + n] == all[..k] + all[k..k + n];
    EncodeAllAppend(all[..k], all[k..k + n]);
  }

  lemma {:induction false} TracksOn(w: Setup, s: Socket, t: Socket, start: nat, all: seq<Frame>, k: nat, m: nat)
    requires Tracks(w, s, start, all, k) && k <= m <= |all| && OnlyRead(s, t)
    requires t.pos == s.pos + |EncodeAll(all[k..m])| && Ready(w.TcpSize(), t, all[m..])
    requires |EncodeAll(all[..m])| == |EncodeAll(all[..k])| + |EncodeAll(all[k..m])|
    ensures Tracks(w, t, start, all, m)
  {
    hide Ready, EncodeAll, AllFit;
  }

  lemma {:induction false} HoldsMore(w: Setup, st: State, c: CId, base: Base, all: seq<Frame>, k: nat, m: nat, d: Drained)
    requires k <= m <= |all| && Holds(w, st, c, base, all[..k])
    requires Below(d.got, |st.msgBuff|) && FromTcp(d.got, c) && Took(w, c, d, all[k..m])
    ensures Holds(w, Absorb(st, c, d), c, base, all[..m])
  {
    hide FromStream, Messages, Endings, ByFrames, PushAll;
    var st1 := Absorb(st, c, d);
    assert all[..m] == all[..k] + all[k..m];
    forall mid | 0 <= mid < |st.msgBuff|
      ensures FromStream(st1.msgBuff[mid], c) == base.buff[mid] + Messages(w, c, all[..m], mid)
    {
      PushAllAppends(st.msgBuff, d.got, mid);
      FromStreamConcat(st.msgBuff[mid], OfMid(d.got, mid), c);
      FromStreamLetters(d.got, mid, c, true);
      MeaningConcat(w, c, all[..k], all[k..m], mid);
      Assoc(base.buff[mid], Messages(w, c, all[..k], mid), Messages(w, c, all[k..m], mid));
    }
    MeaningConcat(w, c, all[..k], all[k..m], 0);
    EntriesAfter(st, c, d);
    ByFramesConcat(Receiving.EntriesOf(st.history.queued, c), Receiving.Ending(d));
    Assoc(base.ends, Endings(w, all[..k]), Endings(w, all[k..m]));
  }

  lemma {:induction false} EntriesAfter(st: State, c: CId, d: Drained)
    requires Below(d.got, |st.msgBuff|)
    ensures Receiving.EntriesOf(Absorb(st, c, d).history.queued, c) == Receiving.EntriesOf(st.history.queued, c) + Receiving.Ending(d)
  {
    Units(Receiving.EntriesOf(st.history.queued, c));
    if d.end.Some? {
      Receiving.EntriesAppend(st.history.queued, c, d.end.value, c);
    }
  }

  lemma {:induction false} TakeFollows(w: Setup, st: State, c: CId, start: nat, base: Base, least: seq<Frame>)
    requires w.Sound() && |st.msgBuff| == w.parts.MidCount() && c in st.tcp
    requires Follows(w, st, c, start, base, least) && RecvCon(w, st, c).Returned?
    ensures Follows(w, RecvCon(w, st, c).value.0, c, start, base, least)
  {
    hide Tracks, Holds, Drain, Absorb, Setup.Sound, Took, RecvCon, Below, FromTcp;
    var all, k :| Followed(w, st, c, start, base, all, k) && least <= all[..k];
    Receiving.RecvConPanics(w, st, c);
    var m := TakeTracks(w, c, st.tcp[c], start, all, k);
    var d := Receiving.DrainOf(w, st, c).value;
    Receiving.DrainFits(w, st, c);
    Receiving.RecvConAbsorbs(w, st, c);
    Receiving.AbsorbShape(st, c, d);
    HoldsMore(w, st, c, base, all, k, m, d);
    assert all[..k] <= all[..m];
    assert Followed(w, Absorb(st, c, d), c, start, base, all, m);
  }

  /** Reading another connection shows nothing new of `c`. */
  lemma {:induction false} TakeAside(w: Setup, st: State, d: CId, c: CId)
    requires w.Sound() && |st.msgBuff| == w.parts.MidCount() && d in st.tcp && d != c && StreamOf(st, c).Some?
    requires RecvCon(w, st, d).Returned?
    ensures Aside(st, RecvCon(w, st, d).value.0, c)
  {
    Receiving.RecvConPanics(w, st, d);
    Receiving.DrainFits(w, st, d);
    Receiving.RecvConAbsorbs(w, st, d);
    hide Drain, Setup.Sound, RecvCon;
    AbsorbAside(st, d, Receiving.DrainOf(w, st, d).value, c);
  }

  lemma {:induction false} AbsorbAside(st: State, d: CId, dr: Drained, c: CId)
    requires d in st.tcp && d != c && StreamOf(st, c).Some? && Below(dr.got, |st.msgBuff|) && FromTcp(dr.got, d)
    ensures Aside(st, Absorb(st, d, dr), c)
  {
    var st1 := Absorb(st, d, dr);
    LettersAside(st.msgBuff, dr.got, c);
    hide PushAll, FromStream, Below, FromTcp, ByFrames;
    if dr.end.Some? {
      Receiving.EntriesAppend(st.history.queued, d, dr.end.value, c);
      Units(Receiving.EntriesOf(st.history.queued, c));
    }
  }

  lemma {:induction false} LettersAside(b: Buffers, got: seq<Letter>, c: CId)
    requires Below(got, |b|)
    requires forall l :: l in got ==> l.msg.cid != c || l.msg.time.Some?
    ensures forall mid :: 0 <= mid < |b| ==> FromStream(PushAll(b, got)[mid], c) == FromStream(b[mid], c)
  {
    forall mid | 0 <= mid < |b|
      ensures FromStream(PushAll(b, got)[mid], c) == FromStream(b[mid], c)
    {
      hide FromStream, PushAll, Below;
      PushAllAppends(b, got, mid);
      FromStreamConcat(b[mid], OfMid(got, mid), c);
      FromStreamLetters(got, mid, c, false);
      Units(FromStream(b[mid], c));
    }
  }

  lemma {:induction false} UdpAside(w: Setup, st: State, c: CId)
    requires w.Sound() && |st.msgBuff| == w.parts.MidCount() && StreamOf(st, c).Some?
    requires RecvUdps(w, st).Returned?
    ensures Aside(st, RecvUdps(w, st).value.0, c)
  {
    var d := DrainUdp(w, st.cidAddr, st.addrCid, st.udp).value;
    assert FromUdp(d.got, st.cidAddr.Keys) && Below(d.got, |st.msgBuff|);
    LettersAside(st.msgBuff, d.got, c);
    hide DrainUdp, PushAll, Below;
  }

  lemma NoteAside(st: State, d: CId, c: CId)
    requires StreamOf(st, c).Some?
    ensures Aside(st, Queue(st, d, Closed), c)
  {
    Receiving.EntriesAppend(st.history.queued, d, Closed, c);
    var more := if d == c then [Closed] else [];
    ByFramesConcat(Receiving.EntriesOf(st.history.queued, c), more);
    assert [Closed][1..] == [];
    assert ByFrames(more) == [];
    Units(ByFrames(Receiving.EntriesOf(st.history.queued, c)));
  }

  lemma {:induction false} PassAside(w: Setup, st: State, i: nat, v: Verdict, c: CId)
    requires w.Sound() && i < |st.newCons| && st.newCons[i].cid != c && StreamOf(st, c).Some?
    ensures var o := Settle(w, st.(newCons := RemoveAt(st.newCons, i)), st.newCons[i], v);
            o.Returned? ==> Aside(st, o.value, c)
  {
    var p := st.newCons[i];
    var st0 := st.(newCons := RemoveAt(st.newCons, i));
    if v.Accepted? {
      SendAside(w, AddTcpCon(st0, p.cid, p.sock), p.cid, v.resp, c);
      hide SendTo;
    }
    hide FromStream, ByFrames, Setup.Sound;
  }

  lemma SendAside(w: Setup, st: State, cid: CId, m: Msg, c: CId)
    requires w.Sound() && StreamOf(st, c).Some?
    ensures Aside(st, SendTo(w, st, cid, m).1, c)
  {
    hide FromStream, ByFrames, Setup.Sound, Setup.Route;
  }

  lemma {:induction false} TellAside(st: State, c: CId)
    requires Paired(st) && st.disconnected != [] && st.Alive(st.disconnected[0].0) && StreamOf(st, c).Some?
    requires c in st.history.dropped ==> c !in st.tcp
    ensures Aside(st, TellFirst(st), c)
  {
    hide FromStream, ByFrames;
  }

  /** The world adds whole frames; what was read stays what it was, and the reader
      stands where it stood: at a boundary of the frames that are there now. */
  lemma {:induction false} WorldFollows(w: Setup, st: State, after: State, c: CId, start: nat, base: Base, least: seq<Frame>)
    requires Follows(w, st, c, start, base, least) && WorldMoves(st, after)
    requires c in after.tcp ==> exists all :: Writes(w, after.tcp[c].feed, start, all)
    ensures Follows(w, after, c, start, base, least)
  {
    hide Holds, Writes, EncodeAll;
    var all, k :| Followed(w, st, c, start, base, all, k) && least <= all[..k];
    HoldsSame(w, st, after, c, base, all[..k]);
    if c in after.tcp {
      var all1 :| Writes(w, after.tcp[c].feed, start, all1);
      FramesBehind(w, st.tcp[c], after.tcp[c], start, all, k, all1);
      WritesTracks(w, after.tcp[c], start, all1, k);
      assert all1[..k] == all[..k];
      assert Followed(w, after, c, start, base, all1, k);
    } else {
      assert Followed(w, after, c, start, base, all, k);
    }
  }

  lemma {:induction false} FramesBehind(w: Setup, s: Socket, t: Socket, start: nat, all: seq<Frame>, k: nat, all1: seq<Frame>)
    requires Tracks(w, s, start, all, k) && Writes(w, t.feed, start, all1) && s.feed.sent <= t.feed.sent
    ensures all <= all1 && k <= |all1| && all1[..k] == all[..k]
  {
    hide Ready, EncodeAll, WholeCut;
    FitSizes(w, all, |all|);
    FitSizes(w, all1, |all1|);
    assert all[..|all|] == all && all1[..|all1|] == all1;
    assert s.feed.sent[start..] <= t.feed.sent[start..];
    PrefixFree(all, all1);
  }

  lemma HoldsSame(w: Setup, st: State, after: State, c: CId, base: Base, done: seq<Frame>)
    requires Holds(w, st, c, base, done) && WorldMoves(st, after)
    ensures Holds(w, after, c, base, done)
  {
    hide FromStream, ByFrames;
  }

  /** The bytes read determine the frames read. */
  lemma {:induction false} SameFrames(w: Setup, s: Socket, t: Socket, start: nat, all: seq<Frame>, k: nat, all1: seq<Frame>, k1: nat)
    requires Tracks(w, s, start, all, k) && Tracks(w, t, start, all1, k1)
    requires s.pos == t.pos && s.feed.sent <= t.feed.sent
    ensures all[..k] == all1[..k1]
  {
    hide Ready, EncodeAll;
    var n := s.pos - start;
    CutFront(all, k);
    CutFront(all1, k1);
    var sent, sent1 := s.feed.sent[start..], t.feed.sent[start..];
    assert EncodeAll(all[..k]) == sent[..n];
    assert EncodeAll(all1[..k1]) == sent1[..n];
    assert sent[..n] == sent1[..n];
    FitSizes(w, all, k);
    FitSizes(w, all1, k1);
    EncodeAllInjective(all[..k], all1[..k1]);
  }

  lemma CutFront(all: seq<Frame>, k: nat)
    requires k <= |all|
    ensures |EncodeAll(all[..k])| <= |EncodeAll(all)|
    ensures EncodeAll(all[..k]) == EncodeAll(all)[..|EncodeAll(all[..k])|]
  {
    assert all == all[..k] + all[k..];
    EncodeAllAppend(all[..k], all[k..]);
  }

  lemma FitSizes(w: Setup, all: seq<Frame>, k: nat)
    requires AllFit(w.TcpSize(), all) && k <= |all|
    ensures forall f :: f in all[..k] ==> f.mid < U16 && |f.payload| < U16
  {
    forall f | f in all[..k]
      ensures f.mid < U16 && |f.payload| < U16
    {
      var i :| 0 <= i < k && all[..k][i] == f;
      assert all[i] == f && Fits(w.TcpSize(), all[i]);
    }
  }

  // ------------------------------------------------------------------ every move

  lemma {:induction false} StagedOnce(w: Setup, st: State, c: CId)
    requires Inv(w, st) && st.history.issued < CID_COUNT && (c in st.tcp || c in st.history.dropped)
    ensures c in st.tcp ==> c !in st.history.dropped
    ensures forall i :: 0 <= i < |st.newCons| ==> st.newCons[i].cid != c
  {
    forall i | 0 <= i < |st.newCons|
      ensures st.newCons[i].cid != c
    {
      PendingUnknown(w, st, i);
    }
  }

  lemma {:induction false} QuietAside(st: State, st1: State, c: CId)
    requires StreamOf(st, c).Some? && st1.msgBuff == st.msgBuff
    requires st1.tcp == st.tcp && st1.history == st.history.(issued := st1.history.issued, asked := st1.history.asked)
    ensures Aside(st, st1, c)
  {
  }

  lemma {:induction false} ShutAside(st: State, d: CId, c: CId)
    requires StreamOf(st, c).Some? && d in st.tcp
    ensures Aside(st, st.(tcp := st.tcp[d := ShutdownOs(st.tcp[d]).1]), c)
  {
    hide FromStream, ByFrames;
  }

  lemma {:induction false} MoveAside(w: Setup, st: State, op: Op, mv: Move, c: CId)
    requires w.Sound() && StreamOf(st, c).Some? && PartOf(op, mv) && Do(w, st, mv).Returned?
    requires c in st.tcp ==> c !in st.history.dropped
    requires forall i :: 0 <= i < |st.newCons| ==> st.newCons[i].cid != c
    requires !mv.Empty? && !mv.Wait? && mv != Take(c)
    ensures Aside(st, Do(w, st, mv).value, c)
  {
    hide Poll, Settle, SendTo, RecvCon, RecvUdps, Setup.Sound, Aside, StreamOf;
    if mv.Pass? {
      PassAside(w, st, mv.idx, mv.verdict, c);
    } else if mv.Post? {
      SendAside(w, st, mv.cid, mv.m, c);
    } else if mv.Shut? {
      ShutAside(st, mv.cid, c);
    } else if mv.Note? {
      NoteAside(st, mv.cid, c);
    } else if mv.TellOne? {
      TellAside(st, c);
    } else if mv.Take? {
      TakeAside(w, st, mv.cid, c);
    } else if mv.TakeUdp? {
      UdpAside(w, st, c);
    } else {
      QuietAside(st, Do(w, st, mv).value, c);
    }
  }

  lemma {:induction false} MoveFollows(w: Setup, st: State, op: Op, mv: Move, c: CId, start: nat, base: Base, least: seq<Frame>)
    requires w.Sound() && Inv(w, st) && Follows(w, st, c, start, base, least) && Orderly(w, c, start, op) && PartOf(op, mv)
    requires Do(w, st, mv).Returned? && Do(w, st, mv).value.history.issued < CID_COUNT
    ensures Follows(w, Do(w, st, mv).value, c, start, base, least)
  {
    hide *;
    FollowsKnown(w, st, c, start, base, least);
    IssuedBefore(w, st, mv);
    StagedOnce(w, st, c);
    OrderlyMove(w, c, start, op, mv);
    if mv == Take(c) {
      DoTake(w, st, c);
      TakeFollows(w, st, c, start, base, least);
    } else if mv.Wait? {
      DoWait(w, st, mv.after);
      WorldFollows(w, st, mv.after, c, start, base, least);
    } else {
      MoveAside(w, st, op, mv, c);
      AsideFollows(w, st, Do(w, st, mv).value, c, start, base, least);
    }
  }

  lemma OrderlyMove(w: Setup, c: CId, start: nat, op: Op, mv: Move)
    requires Orderly(w, c, start, op) && PartOf(op, mv)
    ensures !mv.Empty?
    ensures mv.Wait? && c in mv.after.tcp ==> exists all :: Writes(w, mv.after.tcp[c].feed, start, all)
  {
    hide Writes;
  }

  lemma FollowsKnown(w: Setup, st: State, c: CId, start: nat, base: Base, least: seq<Frame>)
    requires Follows(w, st, c, start, base, least)
    ensures StreamOf(st, c).Some? && (c in st.tcp || c in st.history.dropped)
  {
  }

  lemma {:induction false} Begins(w: Setup, st: State, c: CId, all: seq<Frame>)
    requires c in st.tcp && Writes(w, st.tcp[c].feed, st.tcp[c].pos, all)
    ensures Followed(w, st, c, st.tcp[c].pos, BaseOf(st, c), all, 0)
    ensures Follows(w, st, c, st.tcp[c].pos, BaseOf(st, c), [])
  {
    var base := BaseOf(st, c);
    assert all[..0] == [];
    WritesTracks(w, st.tcp[c], st.tcp[c].pos, all, 0);
    hide Tracks, FromStream, ByFrames;
    forall mid | 0 <= mid < |base.buff|
      ensures FromStream(st.msgBuff[mid], c) == base.buff[mid] + Messages(w, c, [], mid)
    {
      Units(base.buff[mid]);
    }
    Units(base.ends);
    assert Followed(w, st, c, st.tcp[c].pos, base, all, 0);
  }

  /** End to end. Observe a live connection `c` from any state of a run on, with the
      stream at a frame boundary, and let anything happen but `clear_msgs` (other
      connections, sends, disconnects, retiring `c` itself), while the peer writes
      whole frames and visible headers come with their payloads. If `fs` are the
      frames the peer wrote since then, there is a prefix of `fs` that was consumed:
      the stream stands right behind it, every buffer has got exactly its messages of
      that buffer's type, in the order they were sent, with the frames that do not
      decode skipped, and its disconnect messages and undecodable frames, in order,
      are what the disconnect queue got from this peer. */
  lemma {:induction false} EndToEnd(w: Setup, st: State, ops: seq<Op>, st1: State, c: CId, all: seq<Frame>, fs: seq<Frame>)
    returns (k: nat)
    requires w.Sound() && Inv(w, st) && Run(w, st, ops, st1) && st1.history.issued < CID_COUNT
    requires c in st.tcp && Writes(w, st.tcp[c].feed, st.tcp[c].pos, all)
    requires forall op :: op in ops ==> Orderly(w, c, st.tcp[c].pos, op)
    requires StreamOf(st1, c).Some? ==>
               var s := StreamOf(st1, c).value;
               st.tcp[c].pos <= |s.feed.sent| && s.feed.sent[st.tcp[c].pos..] == EncodeAll(fs)
    requires AllFit(w.TcpSize(), fs)
    ensures StreamOf(st1, c).Some? && k <= |fs|
    ensures StreamOf(st1, c).value.pos == st.tcp[c].pos + |EncodeAll(fs[..k])|
    ensures |st1.msgBuff| == |st.msgBuff|
    ensures forall mid :: 0 <= mid < |st.msgBuff| ==>
              FromStream(st1.msgBuff[mid], c) == FromStream(st.msgBuff[mid], c) + Messages(w, c, fs[..k], mid)
    ensures ByFrames(Receiving.EntriesOf(st1.history.queued, c)) == ByFrames(Receiving.EntriesOf(st.history.queued, c)) + Endings(w, fs[..k])
  {
    var start, base := st.tcp[c].pos, BaseOf(st, c);
    Begins(w, st, c, all);
    hide *;
    RunFollows(w, st, ops, st1, c, start, base, []);
    k := Reached(w, st, st1, c, fs);
  }

  /** Whoever is followed at the start of a run is followed at its end. */
  lemma {:induction false} RunFollows(w: Setup, st: State, ops: seq<Op>, st1: State, c: CId, start: nat, base: Base, least: seq<Frame>)
    requires w.Sound() && Inv(w, st) && Run(w, st, ops, st1) && st1.history.issued < CID_COUNT
    requires Follows(w, st, c, start, base, least) && forall op :: op in ops ==> Orderly(w, c, start, op)
    ensures Follows(w, st1, c, start, base, least)
  {
    hide *;
    var p, ok := (s: State) => Follows(w, s, c, start, base, least), (op: Op) => Orderly(w, c, start, op);
    FollowsKept(w, c, start, base, least, p, ok);
    RunKeepsMore(w, st, ops, st1, p, ok);
  }

  lemma FollowsKept(w: Setup, c: CId, start: nat, base: Base, least: seq<Frame>, p: State -> bool, ok: Op -> bool)
    requires w.Sound()
    requires forall s :: p(s) <==> Follows(w, s, c, start, base, least)
    requires forall op :: ok(op) <==> Orderly(w, c, start, op)
    ensures Kept(w, p, ok)
  {
    hide Follows, Orderly, Inv, Do, Setup.Sound, PartOf;
    forall s: State, op: Op, mv: Move | Inv(w, s) && p(s) && ok(op) && PartOf(op, mv) && Do(w, s, mv).Returned?
                                         && Do(w, s, mv).value.history.issued < CID_COUNT
      ensures p(Do(w, s, mv).value)
    {
      MoveFollows(w, s, op, mv, c, start, base, least);
    }
  }

  /** What following a connection to `st1` says about the frames its peer wrote. */
  lemma {:induction false} Reached(w: Setup, st: State, st1: State, c: CId, fs: seq<Frame>) returns (k: nat)
    requires c in st.tcp && Follows(w, st1, c, st.tcp[c].pos, BaseOf(st, c), []) && AllFit(w.TcpSize(), fs)
    requires StreamOf(st1, c).Some? ==>
               var s := StreamOf(st1, c).value;
               st.tcp[c].pos <= |s.feed.sent| && s.feed.sent[st.tcp[c].pos..] == EncodeAll(fs)
    ensures StreamOf(st1, c).Some? && k <= |fs|
    ensures StreamOf(st1, c).value.pos == st.tcp[c].pos + |EncodeAll(fs[..k])|
    ensures |st1.msgBuff| == |st.msgBuff|
    ensures forall mid :: 0 <= mid < |st.msgBuff| ==>
              FromStream(st1.msgBuff[mid], c) == FromStream(st.msgBuff[mid], c) + Messages(w, c, fs[..k], mid)
    ensures ByFrames(Receiving.EntriesOf(st1.history.queued, c)) == ByFrames(Receiving.EntriesOf(st.history.queued, c)) + Endings(w, fs[..k])
  {
    hide Tracks, FromStream, ByFrames, AllFit, EncodeAll, Messages, Endings;
    var start, base := st.tcp[c].pos, BaseOf(st, c);
    var all1, k1 :| Followed(w, st1, c, start, base, all1, k1);
    OneReading(w, StreamOf(st1, c).value, start, all1, k1, fs);
    k := k1;
  }

  lemma {:induction false} OneReading(w: Setup, s: Socket, start: nat, all: seq<Frame>, k: nat, fs: seq<Frame>)
    requires Tracks(w, s, start, all, k) && AllFit(w.TcpSize(), fs)
    requires start <= |s.feed.sent| && s.feed.sent[start..] == EncodeAll(fs)
    ensures all == fs && k <= |fs| && s.pos == start + |EncodeAll(fs[..k])|
  {
    hide Ready, EncodeAll;
    FitSizes(w, all, |all|);
    FitSizes(w, fs, |fs|);
    assert all[..|all|] == all && fs[..|fs|] == fs;
    EncodeAllInjective(all, fs);
  }

  // ----------------------------------------------------------- what the client sent

  /** Every message goes over TCP and fits. */
  ghost predicate OverTcp(w: Setup, ms: seq<Msg>)
    requires w.Sound()
  {
    forall i :: 0 <= i < |ms| ==> w.Over(ms[i], TCP) && Fits(w.TcpSize(), w.FrameOf(ms[i]))
  }

  ghost function FramesOf(w: Setup, ms: seq<Msg>): (fs: seq<Frame>)
    requires w.Sound() && OverTcp(w, ms)
    ensures |fs| == |ms|
    ensures forall i :: 0 <= i < |ms| ==> w.Over(ms[i], TCP) && fs[i] == w.FrameOf(ms[i])
  {
    seq(|ms|, i requires 0 <= i < |ms| => w.FrameOf(ms[i]))
  }

  /** The messages of `ms` whose type has the id `mid`, as the server buffers them. */
  ghost function Sent(w: Setup, c: CId, ms: seq<Msg>, mid: MId): seq<ErasedNetMsg> {
    if ms == [] then []
    else
      (if ms[0].tid in w.parts.tidMap && w.parts.tidMap[ms[0].tid] == mid && mid != DISCONNECT_TYPE_MID
       then [ErasedNetMsg(c, None, ms[0])] else [])
      + Sent(w, c, ms[1..], mid)
  }

  /** A peer with the same table reads back what was serialized. */
  lemma {:induction false} RoutedProper(w: Setup, m: Msg)
    requires w.Sound() && Faithful(w.serde) && w.Over(m, TCP)
    ensures Proper(w, w.FrameOf(m)) && MessageOf(w, w.FrameOf(m)) == m
  {
    assert w.parts.deser[w.parts.tidMap[m.tid]].tid == m.tid;
  }

  /** The disconnect messages among `ms`, as the server queues them. */
  ghost function Goodbyes(w: Setup, ms: seq<Msg>): seq<Status> {
    if ms == [] then []
    else
      (if ms[0].tid in w.parts.tidMap && w.parts.tidMap[ms[0].tid] == DISCONNECT_TYPE_MID then [Disconnected(ms[0])] else [])
      + Goodbyes(w, ms[1..])
  }

  lemma {:induction false} MeansWhatWasSent(w: Setup, c: CId, ms: seq<Msg>, mid: MId)
    requires w.Sound() && Faithful(w.serde) && OverTcp(w, ms)
    ensures forall i :: 0 <= i < |ms| ==> Proper(w, FramesOf(w, ms)[i]) && MessageOf(w, FramesOf(w, ms)[i]) == ms[i]
    ensures Messages(w, c, FramesOf(w, ms), mid) == Sent(w, c, ms, mid)
    ensures Endings(w, FramesOf(w, ms)) == Goodbyes(w, ms)
    decreases |ms|
  {
    if ms != [] {
      var fs := FramesOf(w, ms);
      RoutedProper(w, ms[0]);
      MeansWhatWasSent(w, c, ms[1..], mid);
      assert fs[1..] == FramesOf(w, ms[1..]);
      hide Proper, MessageOf, Faithful, Setup.Sound;
      assert forall i :: 0 < i < |ms| ==> fs[i] == fs[1..][i - 1];
    }
  }

  ghost function ClientSends(w: Setup, st: C.State, ms: seq<Msg>): C.State
    requires w.Sound()
    decreases |ms|
  {
    if ms == [] then st else ClientSends(w, C.Send(w, st, ms[0]).1, ms[1..])
  }

  /** What a client writes while it sends `ms`: their frames, whole and in order. */
  lemma {:induction false} ClientWrites(w: Setup, st: C.State, ms: seq<Msg>)
    requires w.Sound() && OverTcp(w, ms) && !st.tcp.shut && st.tcp.room >= |EncodeAll(FramesOf(w, ms))|
    ensures ClientSends(w, st, ms).tcp.out == st.tcp.out + EncodeAll(FramesOf(w, ms))
    decreases |ms|
  {
    var fs := FramesOf(w, ms);
    if ms == [] {
      assert fs == [];
      Units(st.tcp.out);
    } else {
      assert fs[1..] == FramesOf(w, ms[1..]);
      var st1 := C.Send(w, st, ms[0]).1;
      RouteIs(w, ms[0], TCP);
      assert st1.tcp == SendOn(w.TcpSize(), st.tcp, fs[0]).1;
      assert EncodeAll(fs) == Encode(fs[0]) + EncodeAll(fs[1..]);
      hide Setup.Sound, Encode, EncodeAll, Setup.Route, Setup.Over, Setup.FrameOf;
      ClientWrites(w, st1, ms[1..]);
      Assoc(st.tcp.out, Encode(fs[0]), EncodeAll(fs[1..]));
    }
  }

  /** After a prefix of the frames of `ms` was consumed, what they mean is the same prefix
      of `ms`, type by type. */
  lemma {:induction false} PrefixMeans(w: Setup, c: CId, ms: seq<Msg>, k: nat, mid: MId)
    requires w.Sound() && Faithful(w.serde) && OverTcp(w, ms) && k <= |ms|
    ensures AllFit(w.TcpSize(), FramesOf(w, ms))
    ensures Messages(w, c, FramesOf(w, ms)[..k], mid) == Sent(w, c, ms[..k], mid)
    ensures Endings(w, FramesOf(w, ms)[..k]) == Goodbyes(w, ms[..k])
  {
    assert FramesOf(w, ms)[..k] == FramesOf(w, ms[..k]);
    MeansWhatWasSent(w, c, ms[..k], mid);
  }

  /** End to end in terms of messages: if what the peer wrote since the observation
      began are the frames of `ms`, some prefix of `ms` was consumed: the stream stands
      right behind its frames, each buffer got exactly the messages of that prefix with
      its type, in the order sent, and the queue its disconnect messages. */
  lemma {:induction false} Delivered(w: Setup, st: State, ops: seq<Op>, st1: State, c: CId, all: seq<Frame>, ms: seq<Msg>)
    returns (k: nat)
    requires w.Sound() && Faithful(w.serde) && OverTcp(w, ms)
    requires Inv(w, st) && Run(w, st, ops, st1) && st1.history.issued < CID_COUNT
    requires c in st.tcp && Writes(w, st.tcp[c].feed, st.tcp[c].pos, all)
    requires forall op :: op in ops ==> Orderly(w, c, st.tcp[c].pos, op)
    requires StreamOf(st1, c).Some? ==>
               var s := StreamOf(st1, c).value;
               st.tcp[c].pos <= |s.feed.sent| && s.feed.sent[st.tcp[c].pos..] == EncodeAll(FramesOf(w, ms))
    ensures k <= |ms| && |st1.msgBuff| == |st.msgBuff|
    ensures StreamOf(st1, c).Some? && StreamOf(st1, c).value.pos == st.tcp[c].pos + |EncodeAll(FramesOf(w, ms)[..k])|
    ensures forall mid :: 0 <= mid < |st.msgBuff| ==>
              FromStream(st1.msgBuff[mid], c) == FromStream(st.msgBuff[mid], c) + Sent(w, c, ms[..k], mid)
    ensures ByFrames(Receiving.EntriesOf(st1.history.queued, c)) == ByFrames(Receiving.EntriesOf(st.history.queued, c)) + Goodbyes(w, ms[..k])
  {
    hide *;
    PrefixMeans(w, c, ms, |ms|, 0);
    k := EndToEnd(w, st, ops, st1, c, all, FramesOf(w, ms));
    PrefixMeans(w, c, ms, k, 0);
    forall mid | 0 <= mid < |st.msgBuff|
      ensures FromStream(st1.msgBuff[mid], c) == FromStream(st.msgBuff[mid], c) + Sent(w, c, ms[..k], mid)
    {
      PrefixMeans(w, c, ms, k, mid);
    }
  }

  /** The two ends together: a client that had written up to where the server stands sends
      `ms`; whatever else happens, when the server's end carries what the client wrote,
      the buffers and the queue hold a prefix of `ms`, and the stream stands behind it. */
  lemma {:induction false} ClientDelivers(w: Setup, st: State, ops: seq<Op>, st1: State, c: CId, all: seq<Frame>, cs: C.State, ms: seq<Msg>)
    returns (k: nat)
    requires w.Sound() && Faithful(w.serde) && OverTcp(w, ms)
    requires !cs.tcp.shut && cs.tcp.room >= |EncodeAll(FramesOf(w, ms))|
    requires Inv(w, st) && Run(w, st, ops, st1) && st1.history.issued < CID_COUNT
    requires c in st.tcp && |cs.tcp.out| == st.tcp[c].pos && Writes(w, st.tcp[c].feed, st.tcp[c].pos, all)
    requires forall op :: op in ops ==> Orderly(w, c, st.tcp[c].pos, op)
    requires StreamOf(st1, c).Some? ==> StreamOf(st1, c).value.feed.sent == ClientSends(w, cs, ms).tcp.out
    ensures k <= |ms| && |st1.msgBuff| == |st.msgBuff|
    ensures StreamOf(st1, c).Some? && StreamOf(st1, c).value.pos == |cs.tcp.out| + |EncodeAll(FramesOf(w, ms)[..k])|
    ensures forall mid :: 0 <= mid < |st.msgBuff| ==>
              FromStream(st1.msgBuff[mid], c) == FromStream(st.msgBuff[mid], c) + Sent(w, c, ms[..k], mid)
    ensures ByFrames(Receiving.EntriesOf(st1.history.queued, c)) == ByFrames(Receiving.EntriesOf(st.history.queued, c)) + Goodbyes(w, ms[..k])
  {
    hide *;
    ClientWrites(w, cs, ms);
    var out, more := cs.tcp.out, EncodeAll(FramesOf(w, ms));
    assert (out + more)[|out|..] == more;
    k := Delivered(w, st, ops, st1, c, all, ms);
  }

  /** The other direction: a connected client that receives from a ready stream takes
      whole frames off its front and buffers exactly their messages in order. The only
      frame among them that is no message, if any, is the last one, and it is what ends
      the connection. */
  lemma {:induction false} ClientTakes(w: Setup, st: C.State, fs: seq<Frame>) returns (n: nat)
    requires w.Sound() && |st.msgBuff| == w.parts.MidCount() && st.status.Connected?
    requires Ready(w.TcpSize(), st.tcp, fs) && C.RecvTcps(w, st).Returned?
    ensures n <= |fs| && Sealed(w, fs[..n])
    ensures var st1 := C.RecvTcps(w, st).value.0;
            && |st1.msgBuff| == |st.msgBuff|
            && (forall mid :: 0 <= mid < |st.msgBuff| ==> st1.msgBuff[mid] == st.msgBuff[mid] + Messages(w, 0, fs[..n], mid))
            && Endings(w, fs[..n]) == ByFrames([st1.status])
            && st1.tcp.pos == st.tcp.pos + |EncodeAll(fs[..n])| && Ready(w.TcpSize(), st1.tcp, fs[n..])
  {
    n := DrainTakes(w, 0, st.tcp, fs);
    var d := Drain(w, 0, st.tcp).value;
    assert Below(d.got, |st.msgBuff|);
    hide Drain, Ready, Setup.Sound, PushAll, Messages, Endings, Took, Below, ByFrames, Sealed, EncodeAll;
    ReadMeans(w, st.msgBuff, d, fs, n);
  }

  lemma {:induction false} ReadMeans(w: Setup, b: Buffers, d: Drained, fs: seq<Frame>, n: nat)
    requires n <= |fs| && Below(d.got, |b|) && Took(w, 0, d, fs[..n])
    ensures Sealed(w, fs[..n])
    ensures forall mid :: 0 <= mid < |b| ==> PushAll(b, d.got)[mid] == b[mid] + Messages(w, 0, fs[..n], mid)
    ensures Endings(w, fs[..n]) == ByFrames([if d.end.Some? then d.end.value else Connected])
  {
    hide PushAll, Messages, Endings, Below;
    forall mid | 0 <= mid < |b|
      ensures PushAll(b, d.got)[mid] == b[mid] + Messages(w, 0, fs[..n], mid)
    {
      PushAllAppends(b, d.got, mid);
    }
    if d.end.None? {
      ByFramesOne(Connected);
    }
  }

  // ------------------------------------------------- nothing before registration

  /** Messages come from ids that are or were registered. */
  ghost predicate Known(st: State) {
    forall mid, m :: 0 <= mid < |st.msgBuff| && m in st.msgBuff[mid] ==> m.cid in st.tcp || m.cid in st.history.dropped
  }

  lemma PushKnown(b: Buffers, got: seq<Letter>, mid: MId, m: ErasedNetMsg)
    requires Below(got, |b|) && mid < |b| && m in PushAll(b, got)[mid]
    ensures m in b[mid] || exists l :: l in got && l.msg == m
  {
    PushAllAppends(b, got, mid);
    if m in OfMid(got, mid) {
      OfMidFrom(got, mid, m);
    }
  }

  lemma {:induction false} OfMidFrom(got: seq<Letter>, mid: MId, m: ErasedNetMsg)
    requires m in OfMid(got, mid)
    ensures exists l :: l in got && l.msg == m
    decreases |got|
  {
    if got[0].mid == mid && got[0].msg == m {
      assert got[0] in got;
    } else {
      OfMidFrom(got[1..], mid, m);
    }
  }

  lemma {:induction false} TakeKnown(w: Setup, st: State, cid: CId)
    requires w.Sound() && |st.msgBuff| == w.parts.MidCount() && cid in st.tcp && Known(st)
    ensures RecvCon(w, st, cid).Returned? ==> Known(RecvCon(w, st, cid).value.0)
  {
    Receiving.RecvConPanics(w, st, cid);
    hide Drain, RecvCon, Setup.Sound;
    if RecvCon(w, st, cid).Returned? {
      Receiving.DrainFits(w, st, cid);
      Receiving.RecvConAbsorbs(w, st, cid);
      AbsorbKnown(st, cid, Receiving.DrainOf(w, st, cid).value);
    }
  }

  lemma {:induction false} AbsorbKnown(st: State, cid: CId, d: Drained)
    requires cid in st.tcp && Known(st) && Below(d.got, |st.msgBuff|) && FromTcp(d.got, cid)
    ensures Known(Absorb(st, cid, d))
  {
    hide PushAll, Below;
    var st1 := Absorb(st, cid, d);
    forall mid, m | 0 <= mid < |st1.msgBuff| && m in st1.msgBuff[mid]
      ensures m.cid in st1.tcp || m.cid in st1.history.dropped
    {
      PushKnown(st.msgBuff, d.got, mid, m);
    }
  }

  lemma {:induction false} UdpKnown(w: Setup, st: State)
    requires w.Sound() && |st.msgBuff| == w.parts.MidCount() && Paired(st) && Known(st) && RecvUdps(w, st).Returned?
    ensures Known(RecvUdps(w, st).value.0)
  {
    var d := DrainUdp(w, st.cidAddr, st.addrCid, st.udp).value;
    assert FromUdp(d.got, st.cidAddr.Keys) && Below(d.got, |st.msgBuff|);
    hide DrainUdp, PushAll, Below, Setup.Sound;
    var st1 := RecvUdps(w, st).value.0;
    forall mid, m | 0 <= mid < |st1.msgBuff| && m in st1.msgBuff[mid]
      ensures m.cid in st1.tcp || m.cid in st1.history.dropped
    {
      PushKnown(st.msgBuff, d.got, mid, m);
    }
  }

  lemma {:induction false} LaterKnown(st: State, st1: State)
    requires Known(st) && Later(st, st1) && st1.history.issued < CID_COUNT && (st1.msgBuff == st.msgBuff || st1 == ClearMsgs(st))
    ensures Known(st1)
  {
    if st1.msgBuff == st.msgBuff {
      forall mid, m | 0 <= mid < |st1.msgBuff| && m in st1.msgBuff[mid]
        ensures m.cid in st1.tcp || m.cid in st1.history.dropped
      {
        assert Stage(st, m.cid) <= Stage(st1, m.cid);
      }
    }
  }

  lemma {:induction false} MoveKnown(w: Setup, st: State, mv: Move)
    requires w.Sound() && Inv(w, st) && Known(st)
    requires Do(w, st, mv).Returned? && Do(w, st, mv).value.history.issued < CID_COUNT
    ensures Known(Do(w, st, mv).value)
  {
    MoveKeeps(w, st, mv);
    assert Fit(w, st);
    hide Inv, Known, RecvCon, RecvUdps, Later, Poll, Settle, SendTo, TellFirst, Issue, WorldMoves, Setup.Sound;
    if mv.Take? {
      TakeKnown(w, st, mv.cid);
    } else if mv.TakeUdp? {
      UdpKnown(w, st);
    } else if mv.Empty? {
      LaterKnown(st, ClearMsgs(st));
    } else {
      BuffersKept(w, st, mv);
      LaterKnown(st, Do(w, st, mv).value);
    }
  }

  /** Over any run, no buffer holds a message of an id that was never registered; so
      an id that is just being registered starts with nothing in the buffers. */
  lemma {:induction false} KnownOverRuns(w: Setup, listener: seq<Option<Arrival>>, udp: UdpSocket, ops: seq<Op>, st: State)
    requires w.Complete() && Run(w, Start(w, listener, udp), ops, st) && st.history.issued < CID_COUNT
    ensures Known(st)
    ensures forall c: CId, mid :: Stage(st, c) <= 1 && 0 <= mid < |st.msgBuff| ==> Receiving.FromCid(st.msgBuff[mid], c) == []
  {
    var start := Start(w, listener, udp);
    StartInv(w, listener, udp);
    var p, ok := (s: State) => Known(s), (op: Op) => true;
    assert Kept(w, p, ok) by {
      forall s: State, op: Op, mv: Move | Inv(w, s) && p(s) && ok(op) && PartOf(op, mv) && Do(w, s, mv).Returned?
                                           && Do(w, s, mv).value.history.issued < CID_COUNT
        ensures p(Do(w, s, mv).value)
      {
        MoveKnown(w, s, mv);
      }
    }
    RunKeepsMore(w, start, ops, st, p, ok);
    hide Run, Inv, Kept;
    forall c: CId, mid | Stage(st, c) <= 1 && 0 <= mid < |st.msgBuff|
      ensures Receiving.FromCid(st.msgBuff[mid], c) == []
    {
      NobodysMessages(st.msgBuff[mid], c);
    }
  }

  lemma {:induction false} NobodysMessages(b: seq<ErasedNetMsg>, c: CId)
    requires forall m :: m in b ==> m.cid != c
    ensures Receiving.FromCid(b, c) == []
  {
    if b != [] {
      assert b[0] in b;
      NobodysMessages(b[1..], c);
    }
  }
}
