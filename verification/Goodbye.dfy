/** Whether anything is read behind a frame that ends the connection: a disconnect
    message, or one that does not decode. */
module Goodbye {
  import opened Prelude
  import opened Net
  import opened MessageTable
  import opened Tcp
  import opened Inbound
  import opened ServerModel
  import opened Lifecycle
  import opened Runs
  import opened Framing
  import opened EndToEnd

  // ------------------------------------------------------- the input that fails

  /** One call stops at a frame that ends the connection, but the connection stays
      registered until the queue is handled: a second `recv_msgs` before that reads on,
      and buffers a message that was sent behind it. */
  lemma {:induction false} ReadsBehindTheEnd(w: Setup, st: State, c: CId, last: Frame, f: Frame)
    requires w.Sound() && |st.msgBuff| == w.parts.MidCount() && st.tcp.Keys == {c} && st.udp.inbox == []
    requires Ready(w.TcpSize(), st.tcp[c], [last, f]) && Arrived(st.tcp[c])
    requires !Plain(w, last) && !w.Decode(last.mid, last.payload).Panicked? && Plain(w, f)
    ensures var one := RecvMsgs(w, st, [c]);
            && one.Returned? && |one.value.0.msgBuff| == w.parts.MidCount() && one.value.0.tcp.Keys == {c}
            && one.value.0.msgBuff == st.msgBuff
            && one.value.0.disconnected == st.disconnected + [(c, EndOf(w, last))]
            && var two := RecvMsgs(w, one.value.0, [c]);
               && two.Returned? && f.mid < |two.value.0.msgBuff|
               && two.value.0.msgBuff[f.mid] == st.msgBuff[f.mid] + [ErasedNetMsg(c, None, MessageOf(w, f))]
  {
    var t := TakesEnd(w, c, st.tcp[c], last, f);
    var d := Drained(t, [], Some(EndOf(w, last)));
    OneConnection(w, st, c, d);
    var st1 := Absorb(st, c, d);
    PushNothing(st.msgBuff);
    var e := TakesOne(w, c, t, f);
    var l := LetterOf(w, c, f);
    OneConnection(w, st1, c, e);
    hide RecvMsgs, RecvCon, Drain, Plain, EndOf, Setup.Sound, Ready, Arrived;
    assert [l][0] == l && [l][1..] == [];
    PushNothing(Push(st.msgBuff, l));
    assert PushAll(st.msgBuff, [l]) == Push(st.msgBuff, l);
  }

  lemma {:induction false} TakesEnd(w: Setup, c: CId, s: Socket, last: Frame, f: Frame) returns (t: Socket)
    requires Ready(w.TcpSize(), s, [last, f]) && Arrived(s) && !Plain(w, last) && !w.Decode(last.mid, last.payload).Panicked?
    ensures Drain(w, c, s) == Returned(Drained(t, [], Some(EndOf(w, last))))
    ensures Ready(w.TcpSize(), t, [f]) && Arrived(t)
  {
    hide Ready, RecvOn, Arrived, Plain, EndOf, Setup.Decode, Drain;
    RecvReady(w.TcpSize(), s, [last, f]);
    RecvArrived(w.TcpSize(), s, [last, f]);
    RecvIs(w, c, s);
    t := RecvOn(w.TcpSize(), s).1;
    assert [last, f][1..] == [f];
  }

  lemma {:induction false} TakesOne(w: Setup, c: CId, s: Socket, f: Frame) returns (d: Drained)
    requires Ready(w.TcpSize(), s, [f]) && Arrived(s) && Plain(w, f)
    ensures Drain(w, c, s) == Returned(d) && d.got == [LetterOf(w, c, f)]
  {
    hide Ready, RecvOn, Arrived, Plain, LetterOf, Setup.Decode, Drain;
    RecvReady(w.TcpSize(), s, [f]);
    RecvArrived(w.TcpSize(), s, [f]);
    RecvIs(w, c, s);
    var t := RecvOn(w.TcpSize(), s).1;
    assert [f][1..] == [];
    RecvReady(w.TcpSize(), t, []);
    RecvIs(w, c, t);
    Units([LetterOf(w, c, f)]);
    d := Drain(w, c, s).value;
  }

  /** `recv_msgs` with one connection and no datagrams. */
  lemma {:induction false} OneConnection(w: Setup, st: State, c: CId, d: Drained)
    requires w.Sound() && |st.msgBuff| == w.parts.MidCount() && st.tcp.Keys == {c} && st.udp.inbox == []
    requires Drain(w, c, st.tcp[c]) == Returned(d)
    ensures Below(d.got, |st.msgBuff|)
    ensures RecvMsgs(w, st, [c]).Returned? && RecvMsgs(w, st, [c]).value.0 == Absorb(st, c, d)
    ensures var st1 := Absorb(st, c, d);
            st1.tcp.Keys == {c} && st1.tcp[c] == d.sock && |st1.msgBuff| == |st.msgBuff| && st1.udp == st.udp
  {
    Receiving.DrainFits(w, st, c);
    Receiving.RecvConAbsorbs(w, st, c);
    hide Drain, RecvCon, RecvUdps, MsgTableParts.Shaped, Below, PushAll;
    var st1 := Absorb(st, c, d);
    AbsorbOnly(st, c, d);
    hide Absorb;
    NoDatagrams(w, st1);
    OneTcp(w, st, c, st1, d.Count());
  }

  lemma {:induction false} AbsorbOnly(st: State, c: CId, d: Drained)
    requires st.tcp.Keys == {c} && Below(d.got, |st.msgBuff|)
    ensures var st1 := Absorb(st, c, d);
            st1.tcp.Keys == {c} && st1.tcp[c] == d.sock && |st1.msgBuff| == |st.msgBuff| && st1.udp == st.udp
  {
    hide PushAll, Below;
  }

  lemma {:induction false} OneTcp(w: Setup, st: State, c: CId, st1: State, n: nat)
    requires w.Sound() && |st.msgBuff| == w.parts.MidCount() && c in st.tcp
    requires |st1.msgBuff| == |st.msgBuff| && RecvCon(w, st, c) == Returned((st1, n))
    ensures RecvTcps(w, st, [c]) == Returned((st1, n))
  {
    hide RecvCon, MsgTableParts.Shaped;
    assert [c][1..] == [];
    assert RecvTcps(w, st1, []) == Returned((st1, 0));
  }

  lemma {:induction false} NoDatagrams(w: Setup, st: State)
    requires w.Sound() && |st.msgBuff| == w.parts.MidCount() && st.udp.inbox == []
    ensures RecvUdps(w, st) == Returned((st, 0))
  {
    PushNothing(st.msgBuff);
  }

  // --------------------------------------------------------- the exact condition

  /** `recv_msgs` is not called while an end of `c` that a frame caused waits in the
      queue, unless the stream of `c` has nothing to give. */
  ghost predicate Patient(w: Setup, st: State, op: Op, c: CId) {
    op.Recv? && c in st.tcp && ByFrames(Receiving.EntriesOf(st.disconnected, c)) != [] ==> RecvOn(w.TcpSize(), st.tcp[c]).0.Err?
  }

  ghost predicate PatientRun(w: Setup, st: State, ops: seq<Op>, c: CId)
    requires w.Sound()
    decreases |ops|
  {
    ops == [] ||
    (Patient(w, st, ops[0], c) &&
     (Fit(w, st) && Legal(st, ops[0]) && Step(w, st, ops[0]).Returned? ==> PatientRun(w, Step(w, st, ops[0]).value, ops[1..], c)))
  }

  lemma {:induction false} EndingsNone(w: Setup, fs: seq<Frame>)
    ensures Endings(w, fs) == [] <==> forall i :: 0 <= i < |fs| ==> Plain(w, fs[i])
    decreases |fs|
  {
    hide Plain, EndOf;
    if fs != [] {
      EndingsNone(w, fs[1..]);
      assert forall i :: 0 < i < |fs| ==> fs[i] == fs[1..][i - 1];
    }
  }

  lemma {:induction false} SealedMore(w: Setup, all: seq<Frame>, k: nat, m: nat)
    requires k <= m <= |all| && Sealed(w, all[..k]) && Sealed(w, all[k..m])
    ensures Sealed(w, all[..m]) <==> Endings(w, all[..k]) == [] || m == k
  {
    EndingsNone(w, all[..k]);
    hide Plain, Endings;
    assert forall i :: 0 <= i < m ==> all[..m][i] == all[i];
    assert forall i :: 0 <= i < k ==> all[..k][i] == all[i];
    assert forall i :: k <= i < m ==> all[k..m][i - k] == all[i];
    if Endings(w, all[..k]) != [] && m > k {
      var i :| 0 <= i < k && !Plain(w, all[..k][i]);
      assert !Plain(w, all[..m][i]);
    }
  }

  lemma {:induction false} SealedFront(w: Setup, fs: seq<Frame>, gs: seq<Frame>)
    requires fs <= gs && Sealed(w, gs)
    ensures Sealed(w, fs)
  {
  }

  // ------------------------------------------------------------------ the queue

  lemma {:induction false} EntriesConcat(a: seq<(CId, Status)>, b: seq<(CId, Status)>, c: CId)
    ensures Receiving.EntriesOf(a + b, c) == Receiving.EntriesOf(a, c) + Receiving.EntriesOf(b, c)
    decreases |a|
  {
    if a == [] {
      Units(b);
      Units(Receiving.EntriesOf(b, c));
    } else {
      assert (a + b)[0] == a[0] && (a + b)[1..] == a[1..] + b;
      EntriesConcat(a[1..], b, c);
      Assoc(if a[0].0 == c then [a[0].1] else [], Receiving.EntriesOf(a[1..], c), Receiving.EntriesOf(b, c));
    }
  }

  lemma {:induction false} EntriesNone(q: seq<(CId, Status)>, c: CId)
    requires forall k :: 0 <= k < |q| ==> q[k].0 != c
    ensures Receiving.EntriesOf(q, c) == []
    decreases |q|
  {
    if q != [] {
      EntriesNone(q[1..], c);
    }
  }

  /** Of a live id every entry ever queued is still waiting. */
  lemma {:induction false} AllWaiting(w: Setup, st: State, c: CId)
    requires Inv(w, st) && st.history.issued < CID_COUNT && c in st.tcp
    ensures Receiving.EntriesOf(st.history.queued, c) == Receiving.EntriesOf(st.disconnected, c)
  {
    assert Queued(st);
    hide Inv, Staged;
    var q := st.history.queued;
    var gone := q[..Popped(st)];
    assert q == gone + st.disconnected;
    EntriesConcat(gone, st.disconnected, c);
    EntriesNone(gone, c);
    Units(Receiving.EntriesOf(st.disconnected, c));
  }

  // -------------------------------------------------------------- one call, its stream

  /** What a call that is not `recv_msgs` cannot do to the stream of `c`. */
  ghost predicate Unread(s: Socket, st: State, c: CId) {
    StreamOf(st, c).Some? && StreamOf(st, c).value.pos == s.pos && s.feed.sent <= StreamOf(st, c).value.feed.sent
  }

  lemma {:induction false} MoveUnread(w: Setup, st: State, op: Op, mv: Move, c: CId, s: Socket)
    requires w.Sound() && Inv(w, st) && Unread(s, st, c) && !op.Recv? && PartOf(op, mv)
    requires Do(w, st, mv).Returned? && Do(w, st, mv).value.history.issued < CID_COUNT
    ensures Unread(s, Do(w, st, mv).value, c)
  {
    IssuedBefore(w, st, mv);
    assert c in st.tcp || c in st.history.dropped;
    StagedOnce(w, st, c);
    assert !mv.Take? && !mv.TakeUdp?;
    hide Inv, PartOf, Setup.Sound, Poll, Settle, SendTo, RecvCon, RecvUdps, TellFirst, Issue, Aside, FromStream, ByFrames;
    if !mv.Empty? && !mv.Wait? {
      MoveAside(w, st, op, mv, c);
      AsideUnread(s, st, Do(w, st, mv).value, c);
    }
  }

  lemma AsideUnread(s: Socket, st: State, st1: State, c: CId)
    requires Unread(s, st, c) && Aside(st, st1, c)
    ensures Unread(s, st1, c)
  {
    hide FromStream, ByFrames;
  }

  lemma {:induction false} StepUnread(w: Setup, st: State, op: Op, c: CId)
    requires w.Sound() && Inv(w, st) && Legal(st, op) && !op.Recv? && StreamOf(st, c).Some?
    requires Step(w, st, op).Returned? && Step(w, st, op).value.history.issued < CID_COUNT
    ensures Unread(StreamOf(st, c).value, Step(w, st, op).value, c)
  {
    var s := StreamOf(st, c).value;
    assert Fit(w, st) && Unread(s, st, c);
    hide Inv, Step, DoAll, Do, Unread, Setup.Sound, PartOf;
    var mvs := StepMoves(w, st, op);
    var p, ok := (x: State) => Unread(s, x, c), (o: Op) => !o.Recv?;
    assert Kept(w, p, ok) by {
      forall x: State, o: Op, mv: Move | Inv(w, x) && p(x) && ok(o) && PartOf(o, mv) && Do(w, x, mv).Returned?
                                          && Do(w, x, mv).value.history.issued < CID_COUNT
        ensures p(Do(w, x, mv).value)
      {
        MoveUnread(w, x, o, mv, c, s);
      }
    }
    MovesKeepMore(w, st, mvs, op, p, ok);
  }

  /** What `recv_msgs` does to the stream of `c`. */
  lemma {:induction false} RecvStream(w: Setup, st: State, order: seq<CId>, c: CId)
    requires w.Sound() && |st.msgBuff| == w.parts.MidCount() && Receiving.Visits(order, st)
    requires RecvMsgs(w, st, order).Returned?
    ensures var st1 := RecvMsgs(w, st, order).value.0;
            && (c in st1.tcp <==> c in st.tcp) && st1.history.dropped == st.history.dropped
            && (c in st.tcp ==> Drain(w, c, st.tcp[c]).Returned? && st1.tcp[c] == Drain(w, c, st.tcp[c]).value.sock)
  {
    Receiving.RecvTcpsGrow(w, st, order);
    RecvTcpsKeeps(w, st, order);
    hide Drain, RecvTcps, DrainUdp, Setup.Sound, NoDup;
    var a := RecvTcps(w, st, order).value.0;
    if c in st.tcp {
      assert c in order;
      assert Receiving.Grew(st, a, c, Receiving.DrainOf(w, st, c).value);
    }
  }

  // --------------------------------------------------------------- one call, its frames

  /** What `recv_msgs` takes of the stream of `c`. */
  lemma {:induction false} RecvTakes(w: Setup, st: State, op: Op, c: CId, start: nat, base: Base, all: seq<Frame>, k: nat, all1: seq<Frame>, k1: nat)
    returns (m: nat)
    requires w.Sound() && Fit(w, st) && op.Recv? && Legal(st, op) && Step(w, st, op).Returned? && c in st.tcp
    requires Followed(w, st, c, start, base, all, k) && Followed(w, Step(w, st, op).value, c, start, base, all1, k1)
    ensures k <= m <= |all| && k1 <= |all1| && all1[..k1] == all[..m]
    ensures m == k <==> RecvOn(w.TcpSize(), st.tcp[c]).0.Err?
    ensures Arrived(st.tcp[c]) ==> m == |all| || (m > k && !Plain(w, all[m - 1]))
    ensures Sealed(w, all[k..m])
  {
    hide *;
    var s := st.tcp[c];
    LiveStream(st, c);
    FollowedTracks(w, st, c, start, base, all, k);
    StepIsRecv(w, st, op);
    RecvStream(w, st, op.order, c);
    m := TakeTracks(w, c, s, start, all, k);
    ReadSealed(w, c, Drain(w, c, s).value, all[k..m]);
    var st1 := Step(w, st, op).value;
    LiveStream(st1, c);
    FollowedTracks(w, st1, c, start, base, all1, k1);
    SameFrames(w, Drain(w, c, s).value.sock, Drain(w, c, s).value.sock, start, all, m, all1, k1);
  }

  lemma LiveStream(st: State, c: CId)
    ensures c in st.tcp ==> StreamOf(st, c) == Some(st.tcp[c])
  {
  }

  lemma ReadSealed(w: Setup, c: CId, d: Drained, done: seq<Frame>)
    requires Took(w, c, d, done)
    ensures Sealed(w, done)
  {
  }

  lemma StepIsRecv(w: Setup, st: State, op: Op)
    requires w.Sound() && Fit(w, st) && op.Recv? && Legal(st, op)
    ensures |st.msgBuff| == w.parts.MidCount() && Receiving.Visits(op.order, st)
    ensures Step(w, st, op).Returned? ==>
              RecvMsgs(w, st, op.order).Returned? && Step(w, st, op).value == RecvMsgs(w, st, op.order).value.0
  {
    hide RecvMsgs;
  }

  /** What waits for `c` is what its frames said. */
  lemma {:induction false} WaitingIs(w: Setup, st: State, c: CId, start: nat, base: Base, all: seq<Frame>, k: nat)
    requires Inv(w, st) && st.history.issued < CID_COUNT && c in st.tcp
    requires Followed(w, st, c, start, base, all, k) && base.ends == []
    ensures k <= |all| && ByFrames(Receiving.EntriesOf(st.disconnected, c)) == Endings(w, all[..k])
  {
    hide Inv, Tracks, Endings, ByFrames, FromStream, Messages;
    AllWaiting(w, st, c);
    Units(Endings(w, all[..k]));
  }

  /** `recv_msgs` keeps what was read sealed exactly when it was patient. */
  lemma {:induction false} RecvSeals(w: Setup, st: State, op: Op, c: CId, start: nat, base: Base, all: seq<Frame>, k: nat, all1: seq<Frame>, k1: nat)
    requires w.Sound() && Inv(w, st) && st.history.issued < CID_COUNT && op.Recv? && Legal(st, op) && Step(w, st, op).Returned?
    requires Followed(w, st, c, start, base, all, k) && Followed(w, Step(w, st, op).value, c, start, base, all1, k1)
    requires base.ends == [] && Sealed(w, all[..k]) && c in st.tcp
    ensures Sealed(w, all1[..k1]) <==> Patient(w, st, op, c)
    ensures all[..k] <= all1[..k1]
  {
    hide *;
    InvFit(w, st);
    var m := RecvTakes(w, st, op, c, start, base, all, k, all1, k1);
    WaitingIs(w, st, c, start, base, all, k);
    SealedMore(w, all, k, m);
    PatientIs(w, st, op, c);
    assert all[..k] <= all[..m];
  }

  lemma InvFit(w: Setup, st: State)
    requires Inv(w, st)
    ensures Fit(w, st)
  {
    hide Staged, Queued;
  }

  lemma PatientIs(w: Setup, st: State, op: Op, c: CId)
    ensures op.Recv? && c in st.tcp ==>
              (Patient(w, st, op, c) <==> ByFrames(Receiving.EntriesOf(st.disconnected, c)) == [] || RecvOn(w.TcpSize(), st.tcp[c]).0.Err?)
    ensures !op.Recv? || c !in st.tcp ==> Patient(w, st, op, c)
  {
  }

  /** Every other call leaves the stream of `c` where it was. */
  lemma {:induction false} StepLeaves(w: Setup, st: State, op: Op, c: CId)
    requires w.Sound() && Inv(w, st) && Legal(st, op) && Step(w, st, op).Returned? && Step(w, st, op).value.history.issued < CID_COUNT
    requires !op.Recv? || c !in st.tcp
    requires StreamOf(st, c).Some? && StreamOf(Step(w, st, op).value, c).Some?
    ensures var s, t := StreamOf(st, c).value, StreamOf(Step(w, st, op).value, c).value;
            s.pos == t.pos && s.feed.sent <= t.feed.sent
  {
    if op.Recv? {
      InvFit(w, st);
      StepIsRecv(w, st, op);
      RecvStream(w, st, op.order, c);
      hide Inv, Fit, Step, RecvMsgs, Setup.Sound;
    } else {
      StepUnread(w, st, op, c);
      hide Inv, Step, Setup.Sound;
    }
  }

  lemma {:induction false} StepSeals(w: Setup, st: State, op: Op, c: CId, start: nat, base: Base, all: seq<Frame>, k: nat, all1: seq<Frame>, k1: nat)
    requires w.Sound() && Inv(w, st) && Legal(st, op) && Step(w, st, op).Returned? && Step(w, st, op).value.history.issued < CID_COUNT
    requires Followed(w, st, c, start, base, all, k) && Followed(w, Step(w, st, op).value, c, start, base, all1, k1)
    requires base.ends == [] && Sealed(w, all[..k])
    ensures k <= |all| && k1 <= |all1| && (Sealed(w, all1[..k1]) <==> Patient(w, st, op, c))
    ensures all[..k] <= all1[..k1]
  {
    hide *;
    InvFit(w, st);
    var st1 := Step(w, st, op).value;
    StepKeeps(w, st, op);
    LaterIssued(st, st1);
    FollowedTracks(w, st, c, start, base, all, k);
    FollowedTracks(w, st1, c, start, base, all1, k1);
    if op.Recv? && c in st.tcp {
      RecvSeals(w, st, op, c, start, base, all, k, all1, k1);
    } else {
      PatientIs(w, st, op, c);
      StepLeaves(w, st, op, c);
      SameFrames(w, StreamOf(st, c).value, StreamOf(st1, c).value, start, all, k, all1, k1);
    }
  }

  lemma {:induction false} RunSeals(w: Setup, st: State, ops: seq<Op>, st1: State, c: CId, start: nat, base: Base,
                                    all: seq<Frame>, k: nat, all1: seq<Frame>, k1: nat)
    requires w.Sound() && Inv(w, st) && Run(w, st, ops, st1) && st1.history.issued < CID_COUNT
    requires forall op :: op in ops ==> Orderly(w, c, start, op)
    requires Followed(w, st, c, start, base, all, k) && Followed(w, st1, c, start, base, all1, k1)
    requires base.ends == [] && Sealed(w, all[..k])
    ensures Sealed(w, all1[..k1]) <==> PatientRun(w, st, ops, c)
    decreases |ops|
  {
    hide Inv, Step, Legal, Followed, Orderly, Patient, Setup.Sound, Sealed, Later;
    if ops == [] {
      FollowedSame(w, st, c, start, base, all, k, all1, k1);
    } else {
      var st2 := Step(w, st, ops[0]).value;
      StepKeeps(w, st, ops[0]);
      RunKeeps(w, st2, ops[1..], st1);
      LaterIssued(st2, st1);
      assert ops[0] in ops;
      var all2, k2 := StepFollowed(w, st, ops[0], c, start, base, all, k);
      StepSeals(w, st, ops[0], c, start, base, all, k, all2, k2);
      if Patient(w, st, ops[0], c) {
        RunSeals(w, st2, ops[1..], st1, c, start, base, all2, k2, all1, k1);
      } else {
        StillRead(w, st2, ops[1..], st1, c, start, base, all2, k2, all1, k1);
        if Sealed(w, all1[..k1]) {
          SealedFront(w, all2[..k2], all1[..k1]);
        }
      }
    }
  }

  lemma LaterIssued(st: State, st1: State)
    requires Later(st, st1)
    ensures st.history.issued <= st1.history.issued
  {
  }

  /** One state has one reading. */
  lemma FollowedSame(w: Setup, st: State, c: CId, start: nat, base: Base, all: seq<Frame>, k: nat, all1: seq<Frame>, k1: nat)
    requires Followed(w, st, c, start, base, all, k) && Followed(w, st, c, start, base, all1, k1)
    ensures k <= |all| && k1 <= |all1| && all[..k] == all1[..k1]
  {
    hide Tracks, Holds;
    SameFrames(w, StreamOf(st, c).value, StreamOf(st, c).value, start, all, k, all1, k1);
  }

  lemma FollowsOne(w: Setup, st: State, c: CId, start: nat, base: Base, all: seq<Frame>, k: nat)
    requires Followed(w, st, c, start, base, all, k)
    ensures k <= |all| && Follows(w, st, c, start, base, []) && Follows(w, st, c, start, base, all[..k])
  {
    hide Followed;
    assert k <= |all| by {
      FollowedSame(w, st, c, start, base, all, k, all, k);
    }
    assert [] <= all[..k];
  }

  lemma FollowedSomewhere(w: Setup, st: State, c: CId, start: nat, base: Base, least: seq<Frame>) returns (all: seq<Frame>, k: nat)
    requires Follows(w, st, c, start, base, least)
    ensures Followed(w, st, c, start, base, all, k) && k <= |all| && least <= all[..k]
  {
    hide Tracks, Holds;
    all, k :| Followed(w, st, c, start, base, all, k) && least <= all[..k];
  }

  lemma {:induction false} StepFollowed(w: Setup, st: State, op: Op, c: CId, start: nat, base: Base, all: seq<Frame>, k: nat)
    returns (all1: seq<Frame>, k1: nat)
    requires w.Sound() && Inv(w, st) && Fit(w, st) && Legal(st, op) && Step(w, st, op).Returned?
    requires Step(w, st, op).value.history.issued < CID_COUNT && Orderly(w, c, start, op)
    requires Followed(w, st, c, start, base, all, k)
    ensures k1 <= |all1| && Followed(w, Step(w, st, op).value, c, start, base, all1, k1)
  {
    hide Inv, Fit, Legal, Step, Followed, Follows, Orderly, Setup.Sound;
    var st1 := Step(w, st, op).value;
    FollowsOne(w, st, c, start, base, all, k);
    assert [op][1..] == [];
    assert Run(w, st1, [], st1);
    assert Run(w, st, [op], st1);
    RunFollows(w, st, [op], st1, c, start, base, []);
    all1, k1 := FollowedSomewhere(w, st1, c, start, base, []);
  }

  /** What was read stays read. */
  lemma {:induction false} StillRead(w: Setup, st: State, ops: seq<Op>, st1: State, c: CId, start: nat, base: Base,
                  all: seq<Frame>, k: nat, all1: seq<Frame>, k1: nat)
    requires w.Sound() && Inv(w, st) && Run(w, st, ops, st1) && st1.history.issued < CID_COUNT
    requires forall op :: op in ops ==> Orderly(w, c, start, op)
    requires Followed(w, st, c, start, base, all, k) && Followed(w, st1, c, start, base, all1, k1)
    ensures k <= |all| && k1 <= |all1| && all[..k] <= all1[..k1]
  {
    hide *;
    FollowsOne(w, st, c, start, base, all, k);
    FollowsOne(w, st1, c, start, base, all1, k1);
    RunFollows(w, st, ops, st1, c, start, base, all[..k]);
    var all2, k2 := FollowedSomewhere(w, st1, c, start, base, all[..k]);
    FollowedSame(w, st1, c, start, base, all1, k1, all2, k2);
  }

  /** Over whole runs: what is consumed of the stream of `c` ends at the first frame that
      ends the connection (a disconnect message, or one that does not decode), if there
      is one, exactly when no `recv_msgs` of the run is called while that end waits to
      be handled and the stream has more to give. */
  lemma {:induction false} EndsExactly(w: Setup, st: State, ops: seq<Op>, st1: State, c: CId, all: seq<Frame>, fs: seq<Frame>, k: nat)
    requires w.Sound() && Inv(w, st) && Run(w, st, ops, st1) && st1.history.issued < CID_COUNT
    requires c in st.tcp && Writes(w, st.tcp[c].feed, st.tcp[c].pos, all)
    requires ByFrames(Receiving.EntriesOf(st.disconnected, c)) == []
    requires forall op :: op in ops ==> Orderly(w, c, st.tcp[c].pos, op)
    requires StreamOf(st1, c).Some? ==>
               var s := StreamOf(st1, c).value;
               && st.tcp[c].pos <= |s.feed.sent| && s.feed.sent[st.tcp[c].pos..] == EncodeAll(fs)
               && k <= |fs| && s.pos == st.tcp[c].pos + |EncodeAll(fs[..k])|
    requires AllFit(w.TcpSize(), fs)
    ensures k <= |fs| && (Sealed(w, fs[..k]) <==> PatientRun(w, st, ops, c))
  {
    var start, base := st.tcp[c].pos, BaseOf(st, c);
    Begins(w, st, c, all);
    RunKeeps(w, st, ops, st1);
    assert st.history.issued <= st1.history.issued;
    AllWaiting(w, st, c);
    hide Inv, Followed, Orderly, Run, Setup.Sound, Writes, AllFit, ByFrames, FromStream, Later, Follows, Patient, PatientRun;
    RunFollows(w, st, ops, st1, c, start, base, []);
    var all1, k1 := FollowedSomewhere(w, st1, c, start, base, []);
    FollowedTracks(w, st1, c, start, base, all1, k1);
    OneReading(w, StreamOf(st1, c).value, start, all1, k1, fs);
    SameCount(w, fs, k, k1);
    assert all[..0] == [];
    RunSeals(w, st, ops, st1, c, start, base, all, 0, all1, k1);
  }

  lemma FollowedTracks(w: Setup, st: State, c: CId, start: nat, base: Base, all: seq<Frame>, k: nat)
    requires Followed(w, st, c, start, base, all, k)
    ensures k <= |all| && StreamOf(st, c).Some? && (c in st.tcp || c in st.history.dropped) && Tracks(w, StreamOf(st, c).value, start, all, k)
  {
    hide Tracks;
  }

  lemma {:induction false} SameCount(w: Setup, fs: seq<Frame>, k: nat, k1: nat)
    requires AllFit(w.TcpSize(), fs) && k <= |fs| && k1 <= |fs| && |EncodeAll(fs[..k])| == |EncodeAll(fs[..k1])|
    ensures k == k1
  {
    CutFront(fs, k);
    CutFront(fs, k1);
    FitSizes(w, fs, k);
    FitSizes(w, fs, k1);
    EncodeAllInjective(fs[..k], fs[..k1]);
    hide EncodeAll;
    assert |fs[..k]| == k && |fs[..k1]| == k1;
  }

  lemma {:induction false} RecvIssued(w: Setup, st: State, order: seq<CId>)
    requires w.Sound() && |st.msgBuff| == w.parts.MidCount() && forall c :: c in order ==> c in st.tcp
    ensures RecvMsgs(w, st, order).Returned? ==> RecvMsgs(w, st, order).value.0.history.issued == st.history.issued
  {
    RecvTcpsKeeps(w, st, order);
    hide RecvTcps, DrainUdp, Setup.Sound;
  }

  lemma FollowedHolds(w: Setup, st: State, c: CId, start: nat, base: Base, all: seq<Frame>, k: nat)
    requires Followed(w, st, c, start, base, all, k)
    ensures k <= |all| && Holds(w, st, c, base, all[..k])
    ensures StreamOf(st, c).Some? && StreamOf(st, c).value.pos == start + |EncodeAll(all[..k])|
  {
    hide Holds, EncodeAll;
  }

  /** One `recv_msgs` catches up: if all the peer wrote has arrived, the socket reports no
      fault and every frame is a message, it takes every frame. */
  lemma {:induction false} RecvCatchesUp(w: Setup, st: State, order: seq<CId>, c: CId, fs: seq<Frame>)
    requires w.Sound() && Inv(w, st) && st.history.issued < CID_COUNT && Legal(st, Recv(order)) && c in st.tcp
    requires Writes(w, st.tcp[c].feed, st.tcp[c].pos, fs) && Arrived(st.tcp[c])
    requires forall i :: 0 <= i < |fs| ==> Plain(w, fs[i])
    requires |st.msgBuff| == w.parts.MidCount() && RecvMsgs(w, st, order).Returned?
    ensures var st1 := RecvMsgs(w, st, order).value.0;
            && |st1.msgBuff| == |st.msgBuff|
            && StreamOf(st1, c).Some? && StreamOf(st1, c).value.pos == st.tcp[c].pos + |EncodeAll(fs)|
            && forall mid :: 0 <= mid < |st.msgBuff| ==>
                 FromStream(st1.msgBuff[mid], c) == FromStream(st.msgBuff[mid], c) + Messages(w, c, fs, mid)
  {
    hide *;
    var op, start, base := Recv(order), st.tcp[c].pos, BaseOf(st, c);
    RecvIsStep(w, st, order, c, start);
    Begins(w, st, c, fs);
    RecvIssued(w, st, order);
    var all1, k1 := StepFollowed(w, st, op, c, start, base, fs, 0);
    var m := RecvTakes(w, st, op, c, start, base, fs, 0, all1, k1);
    assert fs[..m] == fs;
    FollowedHolds(w, RecvMsgs(w, st, order).value.0, c, start, base, all1, k1);
    HoldsSince(w, st, RecvMsgs(w, st, order).value.0, c, fs);
  }

  lemma RecvIsStep(w: Setup, st: State, order: seq<CId>, c: CId, start: nat)
    requires w.Sound() && Inv(w, st) && Legal(st, Recv(order))
    ensures Fit(w, st) && |st.msgBuff| == w.parts.MidCount() && (forall d :: d in order ==> d in st.tcp)
    ensures RecvMsgs(w, st, order).Returned? ==> Step(w, st, Recv(order)) == Returned(RecvMsgs(w, st, order).value.0)
    ensures Orderly(w, c, start, Recv(order))
  {
    hide RecvMsgs, Staged, Queued;
  }

  lemma HoldsSince(w: Setup, st: State, st1: State, c: CId, done: seq<Frame>)
    requires Holds(w, st1, c, BaseOf(st, c), done)
    ensures |st1.msgBuff| == |st.msgBuff|
    ensures forall mid :: 0 <= mid < |st.msgBuff| ==>
              FromStream(st1.msgBuff[mid], c) == FromStream(st.msgBuff[mid], c) + Messages(w, c, done, mid)
  {
    hide FromStream, Messages, Endings, ByFrames;
  }

  // ------------------------------------------------- a program that is always patient

  /** Between any two `recv_msgs` the whole queue is handled; `clean` says whether it
      was before the first. */
  predicate Handled(ops: seq<Op>, clean: bool) {
    if ops == [] then true
    else if ops[0].Recv? then clean && Handled(ops[1..], false)
    else Handled(ops[1..], clean || ops[0].TakeDisconnects?)
  }

  ghost predicate NoneWaits(st: State, c: CId) {
    ByFrames(Receiving.EntriesOf(st.disconnected, c)) == []
  }

  lemma NoneWaitsBehind(q: seq<(CId, Status)>, c: CId)
    requires q != [] && ByFrames(Receiving.EntriesOf(q, c)) == []
    ensures ByFrames(Receiving.EntriesOf(q[1..], c)) == []
  {
    ByFramesConcat(if q[0].0 == c then [q[0].1] else [], Receiving.EntriesOf(q[1..], c));
  }

  lemma ClosedIsNoBye(q: seq<(CId, Status)>, d: CId, c: CId)
    ensures ByFrames(Receiving.EntriesOf(q + [(d, Closed)], c)) == ByFrames(Receiving.EntriesOf(q, c))
  {
    Receiving.EntriesAppend(q, d, Closed, c);
    var more := if d == c then [Closed] else [];
    ByFramesConcat(Receiving.EntriesOf(q, c), more);
    assert [Closed][1..] == [];
    assert ByFrames(more) == [];
    Units(ByFrames(Receiving.EntriesOf(q, c)));
  }

  lemma QueueOfMove(w: Setup, st: State, op: Op, mv: Move)
    requires w.Sound() && !op.Recv? && PartOf(op, mv) && Do(w, st, mv).Returned?
    ensures var q := Do(w, st, mv).value.disconnected;
            || q == st.disconnected || (st.disconnected != [] && q == st.disconnected[1..])
            || (mv.Note? && q == st.disconnected + [(mv.cid, Closed)])
  {
    hide Poll, RecvCon, RecvUdps, SendOn, Setup.Route, MsgTableParts.Shaped;
  }

  lemma MoveNoneWaits(w: Setup, st: State, op: Op, mv: Move, c: CId)
    requires w.Sound() && NoneWaits(st, c) && !op.Recv? && PartOf(op, mv) && Do(w, st, mv).Returned?
    ensures NoneWaits(Do(w, st, mv).value, c)
  {
    QueueOfMove(w, st, op, mv);
    hide Do, ByFrames, PartOf, Setup.Sound;
    if st.disconnected != [] {
      NoneWaitsBehind(st.disconnected, c);
    }
    if mv.Note? {
      ClosedIsNoBye(st.disconnected, mv.cid, c);
    }
  }

  lemma {:induction false} StepNoneWaits(w: Setup, st: State, op: Op, c: CId)
    requires w.Sound() && Inv(w, st) && Legal(st, op) && !op.Recv? && Step(w, st, op).Returned?
    requires Step(w, st, op).value.history.issued < CID_COUNT
    ensures NoneWaits(st, c) || op.TakeDisconnects? ==> NoneWaits(Step(w, st, op).value, c)
  {
    assert Fit(w, st);
    if op.TakeDisconnects? {
      Disconnects.DisconnectsTell(st);
      assert Step(w, st, op).value.disconnected == [];
      assert Receiving.EntriesOf([], c) == [];
    } else if NoneWaits(st, c) {
      hide Inv, Step, DoAll, Do, NoneWaits, Setup.Sound, PartOf;
      var mvs := StepMoves(w, st, op);
      var p, ok := (x: State) => NoneWaits(x, c), (o: Op) => !o.Recv?;
      assert Kept(w, p, ok) by {
        forall x: State, o: Op, mv: Move | Inv(w, x) && p(x) && ok(o) && PartOf(o, mv) && Do(w, x, mv).Returned?
                                            && Do(w, x, mv).value.history.issued < CID_COUNT
          ensures p(Do(w, x, mv).value)
        {
          MoveNoneWaits(w, x, o, mv, c);
        }
      }
      MovesKeepMore(w, st, mvs, op, p, ok);
    }
  }

  /** Calling `handle_disconnects` between any two `recv_msgs` is enough. */
  lemma {:induction false} HandledIsPatient(w: Setup, st: State, ops: seq<Op>, st1: State, c: CId, clean: bool)
    requires w.Sound() && Inv(w, st) && Run(w, st, ops, st1) && st1.history.issued < CID_COUNT
    requires Handled(ops, clean) && (clean ==> ByFrames(Receiving.EntriesOf(st.disconnected, c)) == [])
    ensures PatientRun(w, st, ops, c)
    decreases |ops|
  {
    hide Inv, Step, Legal, Setup.Sound, Later, Fit;
    if ops != [] {
      var st2 := Step(w, st, ops[0]).value;
      StepKeeps(w, st, ops[0]);
      RunKeeps(w, st2, ops[1..], st1);
      LaterIssued(st2, st1);
      if ops[0].Recv? {
        HandledIsPatient(w, st2, ops[1..], st1, c, false);
      } else {
        StepNoneWaits(w, st, ops[0], c);
        HandledIsPatient(w, st2, ops[1..], st1, c, clean || ops[0].TakeDisconnects?);
      }
    }
  }
}
