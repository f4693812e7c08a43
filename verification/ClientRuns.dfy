/** Runs of the client: any calls, in any order, with anything arriving in between. */
module ClientRuns {
  import opened Prelude
  import opened Net
  import opened MessageTable
  import opened Tcp
  import opened Udp
  import opened Inbound
  import opened ClientModel
  import opened Framing
  import EndToEnd
  import Goodbye
  import Runs

  datatype Op = Post(m: Msg) | Leave(m: Msg) | Recv | World(after: State)

  /** Between two calls the server writes, bytes and datagrams arrive. */
  ghost predicate Legal(st: State, op: Op) {
    op.World? ==> op.after == st.(tcp := op.after.tcp, udp := op.after.udp) && Runs.SocketMoves(st.tcp, op.after.tcp)
  }

  ghost function Step(w: Setup, st: State, op: Op): Outcome<State>
    requires w.Sound() && |st.msgBuff| == w.parts.MidCount()
  {
    match op
    case Post(m) => Returned(Send(w, st, m).1)
    case Leave(m) =>
      var o :- Disconnect(w, st, m);
      Returned(o.1)
    case Recv =>
      var o :- RecvMsgs(w, st);
      Returned(o.0)
    case World(after) => Returned(after)
  }

  /** `st1` can be reached from `st` by `ops`, none of which panicked. */
  ghost predicate Run(w: Setup, st: State, ops: seq<Op>, st1: State)
    requires w.Sound()
    decreases |ops|
  {
    if ops == [] then st1 == st
    else
      && |st.msgBuff| == w.parts.MidCount() && Legal(st, ops[0])
      && Step(w, st, ops[0]).Returned?
      && Run(w, Step(w, st, ops[0]).value, ops[1..], st1)
  }

  // ------------------------------------------------------------------ the status

  lemma {:induction false} StepStaysOver(w: Setup, st: State, op: Op)
    requires w.Sound() && |st.msgBuff| == w.parts.MidCount() && Legal(st, op) && !st.status.Connected?
    ensures Step(w, st, op).Returned? ==> !Step(w, st, op).value.status.Connected? && Step(w, st, op).value.msgBuff == st.msgBuff
  {
    OverIsOver(w, st);
    hide RecvMsgs, SendOn, Setup.Route, MsgTableParts.Shaped;
  }

  /** A client that is not connected never is again, whatever it calls and whatever
      arrives, and its buffers get nothing more. */
  lemma {:induction false} OverStaysOver(w: Setup, st: State, ops: seq<Op>, st1: State)
    requires w.Sound() && Run(w, st, ops, st1) && !st.status.Connected?
    ensures !st1.status.Connected? && st1.msgBuff == st.msgBuff
    decreases |ops|
  {
    hide Step, Legal, Setup.Sound;
    if ops != [] {
      StepStaysOver(w, st, ops[0]);
      OverStaysOver(w, Step(w, st, ops[0]).value, ops[1..], st1);
    }
  }

  // ------------------------------------------------------------------ the frames

  /** The server goes on writing whole frames, and headers come with payloads. */
  ghost predicate Orderly(w: Setup, start: nat, op: Op) {
    op.World? ==> exists all :: EndToEnd.Writes(w, op.after.tcp.feed, start, all)
  }

  /** The reader stands behind `all[..k]`; the buffers got exactly the messages of these
      frames; the only one among them that is no message, if any, is the last; and the
      client is connected only if there is none. */
  ghost predicate Followed(w: Setup, st: State, start: nat, base: Buffers, all: seq<Frame>, k: nat) {
    && k <= |all| && EndToEnd.Tracks(w, st.tcp, start, all, k)
    && |st.msgBuff| == |base|
    && (forall mid :: 0 <= mid < |base| ==>
          EndToEnd.FromStream(st.msgBuff[mid], 0) == EndToEnd.FromStream(base[mid], 0) + EndToEnd.Messages(w, 0, all[..k], mid))
    && EndToEnd.Sealed(w, all[..k])
    && (st.status.Connected? ==> EndToEnd.Endings(w, all[..k]) == [])
    && (EndToEnd.ByFrames([st.status]) == [] || EndToEnd.Endings(w, all[..k]) == [st.status])
  }

  ghost predicate Follows(w: Setup, st: State, start: nat, base: Buffers) {
    exists all, k :: Followed(w, st, start, base, all, k)
  }

  /** Writing and shutting change nothing of this. */
  lemma {:induction false} WriteFollows(w: Setup, st: State, st1: State, start: nat, base: Buffers)
    requires Follows(w, st, start, base) && st1.msgBuff == st.msgBuff
    requires st1.tcp == st.tcp.(out := st1.tcp.out, room := st1.tcp.room, shut := st1.tcp.shut)
    requires st1.status == st.status || st1.status == Closed
    ensures Follows(w, st1, start, base)
  {
    EndToEnd.ByFramesOne(Closed);
    hide EndToEnd.Tracks, EndToEnd.FromStream, EndToEnd.Messages, EndToEnd.Endings, EndToEnd.ByFrames, EndToEnd.Sealed;
    var all, k :| Followed(w, st, start, base, all, k);
    EndToEnd.TracksSame(w, st.tcp, st1.tcp, start, all, k);
    assert Followed(w, st1, start, base, all, k);
  }

  lemma {:induction false} WorldFollows(w: Setup, st: State, after: State, start: nat, base: Buffers)
    requires Follows(w, st, start, base) && Legal(st, World(after)) && Orderly(w, start, World(after))
    ensures Follows(w, after, start, base)
  {
    hide EndToEnd.Writes, EndToEnd.FromStream, EndToEnd.Messages, EndToEnd.Endings, EndToEnd.ByFrames, EndToEnd.Sealed, EncodeAll;
    var all, k :| Followed(w, st, start, base, all, k);
    var all1 :| EndToEnd.Writes(w, after.tcp.feed, start, all1);
    EndToEnd.FramesBehind(w, st.tcp, after.tcp, start, all, k, all1);
    EndToEnd.WritesTracks(w, after.tcp, start, all1, k);
    assert Followed(w, after, start, base, all1, k);
  }

  // ----------------------------------------------------------------- receiving

  /** What the first loop adds to the buffers. */
  lemma {:induction false} LettersShow(w: Setup, b: Buffers, d: Drained, done: seq<Frame>)
    requires Below(d.got, |b|) && FromTcp(d.got, 0) && EndToEnd.Took(w, 0, d, done)
    ensures forall mid :: 0 <= mid < |b| ==>
              EndToEnd.FromStream(PushAll(b, d.got)[mid], 0) == EndToEnd.FromStream(b[mid], 0) + EndToEnd.Messages(w, 0, done, mid)
  {
    forall mid | 0 <= mid < |b|
      ensures EndToEnd.FromStream(PushAll(b, d.got)[mid], 0) == EndToEnd.FromStream(b[mid], 0) + EndToEnd.Messages(w, 0, done, mid)
    {
      PushAllAppends(b, d.got, mid);
      EndToEnd.FromStreamConcat(b[mid], OfMid(d.got, mid), 0);
      EndToEnd.FromStreamLetters(d.got, mid, 0, true);
      hide EndToEnd.FromStream, EndToEnd.Messages, PushAll, Below;
    }
  }

  lemma {:induction false} BuffersMore(w: Setup, st: State, st1: State, base: Buffers, all: seq<Frame>, k: nat, m: nat)
    requires k <= m <= |all| && |st1.msgBuff| == |st.msgBuff| == |base|
    requires forall mid :: 0 <= mid < |base| ==>
               EndToEnd.FromStream(st.msgBuff[mid], 0) == EndToEnd.FromStream(base[mid], 0) + EndToEnd.Messages(w, 0, all[..k], mid)
    requires forall mid :: 0 <= mid < |base| ==>
               EndToEnd.FromStream(st1.msgBuff[mid], 0) == EndToEnd.FromStream(st.msgBuff[mid], 0) + EndToEnd.Messages(w, 0, all[k..m], mid)
    ensures forall mid :: 0 <= mid < |base| ==>
              EndToEnd.FromStream(st1.msgBuff[mid], 0) == EndToEnd.FromStream(base[mid], 0) + EndToEnd.Messages(w, 0, all[..m], mid)
  {
    hide EndToEnd.FromStream, EndToEnd.Messages;
    assert all[..m] == all[..k] + all[k..m];
    forall mid | 0 <= mid < |base|
      ensures EndToEnd.FromStream(st1.msgBuff[mid], 0) == EndToEnd.FromStream(base[mid], 0) + EndToEnd.Messages(w, 0, all[..m], mid)
    {
      EndToEnd.MeaningConcat(w, 0, all[..k], all[k..m], mid);
      Assoc(EndToEnd.FromStream(base[mid], 0), EndToEnd.Messages(w, 0, all[..k], mid), EndToEnd.Messages(w, 0, all[k..m], mid));
    }
  }

  /** What the frames say about the status that ends the loop. */
  lemma {:induction false} StatusMore(w: Setup, all: seq<Frame>, k: nat, m: nat, d: Drained)
    requires k <= m <= |all| && EndToEnd.Sealed(w, all[..k]) && EndToEnd.Endings(w, all[..k]) == []
    requires EndToEnd.Took(w, 0, d, all[k..m])
    ensures EndToEnd.Sealed(w, all[..m])
    ensures EndToEnd.Endings(w, all[..m]) == EndToEnd.ByFrames(if d.end.Some? then [d.end.value] else [])
  {
    Goodbye.SealedMore(w, all, k, m);
    hide EndToEnd.Sealed, EndToEnd.Endings, EndToEnd.Messages, EndToEnd.ByFrames;
    assert all[..m] == all[..k] + all[k..m];
    EndToEnd.MeaningConcat(w, 0, all[..k], all[k..m], 0);
    Units(EndToEnd.Endings(w, all[k..m]));
  }

  lemma {:induction false} TookMore(w: Setup, st: State, start: nat, base: Buffers, all: seq<Frame>, k: nat, m: nat, d: Drained)
    requires Followed(w, st, start, base, all, k) && st.status.Connected? && k <= m <= |all|
    requires Below(d.got, |st.msgBuff|) && FromTcp(d.got, 0) && EndToEnd.Took(w, 0, d, all[k..m])
    requires EndToEnd.Tracks(w, d.sock, start, all, m)
    ensures Followed(w, AfterTcp(st, d), start, base, all, m)
  {
    hide EndToEnd.Tracks, EndToEnd.FromStream, EndToEnd.Messages, EndToEnd.Endings, EndToEnd.ByFrames, EndToEnd.Sealed, EndToEnd.Took, PushAll, Below, FromTcp;
    var st1 := AfterTcp(st, d);
    LettersShow(w, st.msgBuff, d, all[k..m]);
    BuffersMore(w, st, st1, base, all, k, m);
    StatusMore(w, all, k, m, d);
    EndToEnd.ByFramesOne(st1.status);
  }

  lemma {:induction false} TcpsFollow(w: Setup, st: State, start: nat, base: Buffers)
    requires w.Sound() && |st.msgBuff| == w.parts.MidCount() && Follows(w, st, start, base) && st.status.Connected?
    ensures RecvTcps(w, st).Returned? ==> Follows(w, RecvTcps(w, st).value.0, start, base)
  {
    hide Drain, Followed, AfterTcp, EndToEnd.Took, EndToEnd.Tracks;
    if RecvTcps(w, st).Returned? {
      var all, k :| Followed(w, st, start, base, all, k);
      FollowedTracks(w, st, start, base, all, k);
      var m := EndToEnd.TakeTracks(w, 0, st.tcp, start, all, k);
      TookMore(w, st, start, base, all, k, m, Drain(w, 0, st.tcp).value);
    }
  }

  lemma {:induction false} FollowedTracks(w: Setup, st: State, start: nat, base: Buffers, all: seq<Frame>, k: nat)
    requires Followed(w, st, start, base, all, k)
    ensures EndToEnd.Tracks(w, st.tcp, start, all, k)
  {
    hide EndToEnd.Tracks;
  }

  /** Datagrams show nothing of the stream. */
  lemma {:induction false} UdpsFollow(w: Setup, st: State, start: nat, base: Buffers)
    requires w.Sound() && |st.msgBuff| == w.parts.MidCount() && Follows(w, st, start, base)
    ensures RecvUdps(w, st).Returned? ==> Follows(w, RecvUdps(w, st).value.0, start, base)
  {
    if RecvUdps(w, st).Returned? && st.status.Connected? {
      var d := DrainUdp(w, st.udp).value;
      assert Below(d.got, |st.msgBuff|);
      EndToEnd.LettersAside(st.msgBuff, d.got, 0);
      hide DrainUdp, EndToEnd.Tracks, EndToEnd.FromStream, EndToEnd.Messages, EndToEnd.Endings, EndToEnd.ByFrames, EndToEnd.Sealed, PushAll, Below;
      var all, k :| Followed(w, st, start, base, all, k);
      assert Followed(w, RecvUdps(w, st).value.0, start, base, all, k);
    }
  }

  lemma {:induction false} RecvFollows(w: Setup, st: State, start: nat, base: Buffers)
    requires w.Sound() && |st.msgBuff| == w.parts.MidCount() && Follows(w, st, start, base)
    ensures RecvMsgs(w, st).Returned? ==> Follows(w, RecvMsgs(w, st).value.0, start, base)
  {
    hide RecvTcps, RecvUdps, Follows;
    if !st.status.Connected? {
      OverIsOver(w, st);
    } else if RecvTcps(w, st).Returned? {
      TcpsFollow(w, st, start, base);
      SameLength(w, st);
      UdpsFollow(w, RecvTcps(w, st).value.0, start, base);
    }
  }

  lemma {:induction false} SameLength(w: Setup, st: State)
    requires w.Sound() && |st.msgBuff| == w.parts.MidCount()
    ensures RecvTcps(w, st).Returned? ==> |RecvTcps(w, st).value.0.msgBuff| == |st.msgBuff|
  {
    hide Drain;
  }

  lemma {:induction false} StepFollows(w: Setup, st: State, op: Op, start: nat, base: Buffers)
    requires w.Sound() && |st.msgBuff| == w.parts.MidCount() && Legal(st, op) && Orderly(w, start, op)
    requires Follows(w, st, start, base) && Step(w, st, op).Returned?
    ensures Follows(w, Step(w, st, op).value, start, base)
  {
    hide RecvMsgs, Follows, Setup.Route, Setup.Sound, Orderly, Encode;
    match op
    case Post(m) => WriteFollows(w, st, Send(w, st, m).1, start, base);
    case Leave(m) => WriteFollows(w, st, Disconnect(w, st, m).value.1, start, base);
    case Recv => RecvFollows(w, st, start, base);
    case World(after) => WorldFollows(w, st, after, start, base);
  }

  lemma {:induction false} RunFollows(w: Setup, st: State, ops: seq<Op>, st1: State, start: nat, base: Buffers)
    requires w.Sound() && Run(w, st, ops, st1) && Follows(w, st, start, base)
    requires forall op :: op in ops ==> Orderly(w, start, op)
    ensures Follows(w, st1, start, base)
    decreases |ops|
  {
    hide Step, Legal, Follows, Orderly, Setup.Sound;
    if ops != [] {
      assert ops[0] in ops;
      StepFollows(w, st, ops[0], start, base);
      RunFollows(w, Step(w, st, ops[0]).value, ops[1..], st1, start, base);
    }
  }

  lemma {:induction false} Begins(w: Setup, st: State, all: seq<Frame>)
    requires st.status.Connected? && EndToEnd.Writes(w, st.tcp.feed, st.tcp.pos, all)
    ensures Follows(w, st, st.tcp.pos, st.msgBuff)
  {
    assert all[..0] == [];
    EndToEnd.WritesTracks(w, st.tcp, st.tcp.pos, all, 0);
    EndToEnd.ByFramesOne(Connected);
    hide EndToEnd.Tracks, EndToEnd.FromStream, EndToEnd.ByFrames;
    forall mid | 0 <= mid < |st.msgBuff|
      ensures EndToEnd.FromStream(st.msgBuff[mid], 0) == EndToEnd.FromStream(st.msgBuff[mid], 0) + EndToEnd.Messages(w, 0, [], mid)
    {
      Units(EndToEnd.FromStream(st.msgBuff[mid], 0));
    }
    assert Followed(w, st, st.tcp.pos, st.msgBuff, all, 0);
  }

  /** From the server to the client, over whole runs. Observe a connected client at a frame
      boundary and let it receive, send and disconnect in any order while the server
      writes whole frames and visible headers come with their payloads. If `fs` are the
      frames the server wrote since then, a prefix of `fs` was consumed: the stream
      stands right behind it, the buffers got over the stream exactly its messages, in
      order, and it ends at the first frame that is no message, if there is one; no
      patience is needed, because the status guards the loop. The client is connected
      only before such a frame, and a status that a frame caused is what that frame says. */
  lemma {:induction false} ClientReceives(w: Setup, st: State, ops: seq<Op>, st1: State, all: seq<Frame>, fs: seq<Frame>)
    returns (k: nat)
    requires w.Sound() && Run(w, st, ops, st1) && st.status.Connected?
    requires EndToEnd.Writes(w, st.tcp.feed, st.tcp.pos, all) && forall op :: op in ops ==> Orderly(w, st.tcp.pos, op)
    requires st.tcp.pos <= |st1.tcp.feed.sent| && st1.tcp.feed.sent[st.tcp.pos..] == EncodeAll(fs) && AllFit(w.TcpSize(), fs)
    ensures k <= |fs| && st1.tcp.pos == st.tcp.pos + |EncodeAll(fs[..k])| && |st1.msgBuff| == |st.msgBuff|
    ensures forall mid :: 0 <= mid < |st.msgBuff| ==>
              EndToEnd.FromStream(st1.msgBuff[mid], 0) == EndToEnd.FromStream(st.msgBuff[mid], 0) + EndToEnd.Messages(w, 0, fs[..k], mid)
    ensures EndToEnd.Sealed(w, fs[..k])
    ensures st1.status.Connected? ==> EndToEnd.Endings(w, fs[..k]) == []
    ensures st1.status.Disconnected? || st1.status == Dropped(InvalidData) ==> EndToEnd.Endings(w, fs[..k]) == [st1.status]
  {
    Begins(w, st, all);
    RunFollows(w, st, ops, st1, st.tcp.pos, st.msgBuff);
    EndToEnd.ByFramesOne(st1.status);
    hide Run, EndToEnd.Tracks, EndToEnd.FromStream, EndToEnd.Messages, EndToEnd.Endings, EndToEnd.ByFrames, EndToEnd.Sealed,
      EndToEnd.Writes, Orderly, EncodeAll, AllFit, Setup.Sound;
    var all1, k1 :| Followed(w, st1, st.tcp.pos, st.msgBuff, all1, k1);
    EndToEnd.OneReading(w, st1.tcp, st.tcp.pos, all1, k1, fs);
    k := k1;
  }
}
