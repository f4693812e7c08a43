/** What the server writes to a new stream first, and what a client needs of it. */
module Handshake {
  import opened Prelude
  import opened Header
  import opened Net
  import opened MessageTable
  import opened Tcp
  import opened Udp
  import opened Inbound
  import opened ServerModel
  import opened Lifecycle
  import opened Runs
  import Framing
  import Receiving
  import C = ClientModel

  /** A message of the response type that serializes and fits. */
  predicate Sendable(w: Setup, resp: Msg)
    requires w.Sound()
  {
    && resp.tid in w.parts.tidMap && w.parts.tidMap[resp.tid] == RESPONSE_TYPE_MID && w.serde.ser(resp).Some?
    && Framing.Fits(w.TcpSize(), Frame(RESPONSE_TYPE_MID, w.serde.ser(resp).value))
  }

  function Greeting(w: Setup, resp: Msg): seq<byte>
    requires w.Sound() && Sendable(w, resp)
  {
    Encode(Frame(RESPONSE_TYPE_MID, w.serde.ser(resp).value))
  }

  /** The first thing written was a whole response. */
  ghost predicate Greets(w: Setup, out: seq<byte>)
    requires w.Sound()
  {
    exists resp :: Sendable(w, resp) && Greeting(w, resp) <= out
  }

  /** Nothing but a response was written. */
  ghost predicate OnlyGreets(w: Setup, out: seq<byte>)
    requires w.Sound()
  {
    exists resp :: Sendable(w, resp) && Greeting(w, resp) == out
  }

  /** A registered stream starts with a response, unless it was shut before anything
      could be written to it. */
  ghost predicate Opened(w: Setup, s: Socket)
    requires w.Sound()
  {
    (s.out == [] && s.shut) || Greets(w, s.out)
  }

  ghost predicate Greeted(w: Setup, st: State)
    requires w.Sound()
  {
    && Roomy(w, st)
    && (forall i :: 0 <= i < |st.newCons| ==> st.newCons[i].sock.out == [])
    && (forall c :: c in st.tcp ==> Opened(w, st.tcp[c]))
    && (forall c :: c in st.history.dropped ==>
          if Told(st, c) then Opened(w, st.history.dropped[c])
          else st.history.dropped[c].out == [] || OnlyGreets(w, st.history.dropped[c].out))
  }

  /** A stream nothing was written to takes one message. */
  ghost predicate Roomy(w: Setup, st: State) {
    && (forall i :: 0 <= i < |st.listener| && st.listener[i].Some? ==> st.listener[i].value.room >= w.TcpSize())
    && (forall i :: 0 <= i < |st.newCons| ==> st.newCons[i].sock.room >= w.TcpSize())
  }

  ghost predicate Polite(w: Setup, hook: Hook)
    requires w.Sound()
  {
    forall calls, cid, m :: Sendable(w, hook(calls, cid, m).1)
  }

  /** Hooks answer with responses, and the world leaves room for one. */
  ghost predicate Welcoming(w: Setup, op: Op)
    requires w.Sound()
  {
    (op.New? ==> Polite(w, op.hook)) && (op.World? ==> Roomy(w, op.after))
  }

  lemma ResponseRoute(w: Setup, resp: Msg)
    requires w.Sound() && Sendable(w, resp)
    ensures w.Route(resp) == Some((RESPONSE_TYPE_MID, TCP, w.serde.ser(resp).value))
    ensures w.parts.ser[RESPONSE_TYPE_MID].tid == resp.tid
  {
    assert w.parts.ser[RESPONSE_TYPE_MID] == SerOf(resp.tid);
  }

  /** Writing appends, or does nothing to a stream that is shut. */
  lemma WriteOpened(w: Setup, s: Socket, f: Frame)
    requires w.Sound() && Opened(w, s)
    ensures Opened(w, SendOn(w.TcpSize(), s, f).1)
  {
    var t := SendOn(w.TcpSize(), s, f).1;
    if Greets(w, s.out) {
      var resp :| Sendable(w, resp) && Greeting(w, resp) <= s.out;
      assert s.out <= t.out;
      assert Greeting(w, resp) <= t.out;
    }
  }

  lemma {:induction false} GreetingWritten(w: Setup, s: Socket, resp: Msg)
    requires w.Sound() && Sendable(w, resp) && s.out == [] && s.room >= w.TcpSize()
    ensures var t := SendOn(w.TcpSize(), s, Frame(RESPONSE_TYPE_MID, w.serde.ser(resp).value)).1;
            if s.shut then t.out == [] && t.shut else t.out == Greeting(w, resp)
    ensures var t := SendOn(w.TcpSize(), s, Frame(RESPONSE_TYPE_MID, w.serde.ser(resp).value)).1;
            Opened(w, t) && (t.out == [] || OnlyGreets(w, t.out))
  {
    var t := SendOn(w.TcpSize(), s, Frame(RESPONSE_TYPE_MID, w.serde.ser(resp).value)).1;
    if !s.shut {
      assert t.out == Greeting(w, resp);
    }
  }

  // ------------------------------------------------------------------ every move

  /** Moves after which every stream is at least as far as before. */
  ghost predicate Further(w: Setup, st: State, st1: State)
    requires w.Sound()
  {
    && |st1.newCons| == |st.newCons|
    && (forall i :: 0 <= i < |st.newCons| ==>
          st1.newCons[i].sock.out == st.newCons[i].sock.out && st1.newCons[i].sock.room == st.newCons[i].sock.room)
    && (forall c :: c in st1.tcp ==> c in st.tcp && (Opened(w, st.tcp[c]) ==> Opened(w, st1.tcp[c])))
    && st1.history.dropped == st.history.dropped && st1.history.told == st.history.told
    && (st1.listener == st.listener || (st.listener != [] && st1.listener == st.listener[1..]))
  }

  lemma FurtherGreeted(w: Setup, st: State, st1: State)
    requires w.Sound() && Greeted(w, st) && Further(w, st, st1)
    ensures Greeted(w, st1)
  {
    hide Opened, OnlyGreets, Setup.Sound;
    assert forall c: CId :: Told(st1, c) <==> Told(st, c);
  }

  lemma {:induction false} EnrollGreeted(w: Setup, st: State, now: nat)
    requires w.Sound() && Greeted(w, st) && st.listener != [] && st.listener[0].Some?
    ensures Greeted(w, Issue(st.(listener := st.listener[1..]), st.listener[0].value, now))
  {
    hide Opened, OnlyGreets, Setup.Sound;
    var st1 := Issue(st.(listener := st.listener[1..]), st.listener[0].value, now);
    assert forall c: CId :: Told(st1, c) <==> Told(st, c);
  }

  /** Sending touches one stream, and only by writing a frame. */
  lemma SendWrites(w: Setup, st: State, cid: CId, m: Msg)
    requires w.Sound()
    ensures var st1 := SendTo(w, st, cid, m).1;
            && st1 == st.(tcp := st1.tcp, udp := st1.udp)
            && (forall c :: c in st1.tcp <==> c in st.tcp)
            && forall c :: c in st.tcp ==>
                 st1.tcp[c] == st.tcp[c]
                 || (c == cid && w.Route(m).Some? && w.Route(m).value.1 == TCP
                     && st1.tcp[c] == SendOn(w.TcpSize(), st.tcp[c], Frame(w.Route(m).value.0, w.Route(m).value.2)).1)
  {
    hide SendOn, Setup.Route, Setup.Sound;
  }

  lemma PostFurther(w: Setup, st: State, cid: CId, m: Msg)
    requires w.Sound()
    ensures Further(w, st, SendTo(w, st, cid, m).1)
  {
    hide Opened, SendTo, SendOn, Setup.Route, Setup.Sound;
    SendWrites(w, st, cid, m);
    var st1 := SendTo(w, st, cid, m).1;
    forall c | c in st1.tcp
      ensures Opened(w, st.tcp[c]) ==> Opened(w, st1.tcp[c])
    {
      if Opened(w, st.tcp[c]) && w.Route(m).Some? {
        WriteOpened(w, st.tcp[c], Frame(w.Route(m).value.0, w.Route(m).value.2));
      }
    }
  }

  lemma {:induction false} AcceptGreets(w: Setup, st: State, cid: CId, s: Socket, resp: Msg)
    requires w.Sound() && Sendable(w, resp) && s.out == [] && s.room >= w.TcpSize()
    ensures var st1 := AcceptIncoming(w, st, cid, s, resp);
            && cid in st1.tcp && Opened(w, st1.tcp[cid])
            && (forall c :: c in st1.tcp && c != cid ==> c in st.tcp && st1.tcp[c] == st.tcp[c])
            && st1 == st.(tcp := st1.tcp, udp := st1.udp, cidAddr := st1.cidAddr, addrCid := st1.addrCid)
  {
    ResponseRoute(w, resp);
    GreetingWritten(w, s, resp);
    hide Opened, SendOn, Setup.Route, Setup.Sound, Sendable, OnlyGreets;
    var st0 := AddTcpCon(st, cid, s);
    assert SendTo(w, st0, cid, resp) == SendTcp(w, st0, cid, RESPONSE_TYPE_MID, w.serde.ser(resp).value);
  }

  /** Taking an entry out of the pending ones leaves the rest greeted. */
  lemma {:induction false} WithoutGreeted(w: Setup, st: State, i: nat)
    requires w.Sound() && Greeted(w, st) && i < |st.newCons|
    ensures Greeted(w, st.(newCons := RemoveAt(st.newCons, i)))
  {
    hide Opened, OnlyGreets, Setup.Sound;
    var st1 := st.(newCons := RemoveAt(st.newCons, i));
    assert forall c: CId :: Told(st1, c) <==> Told(st, c);
  }

  lemma {:induction false} AddedGreeted(w: Setup, st: State, st1: State, cid: CId)
    requires w.Sound() && Greeted(w, st)
    requires cid in st1.tcp && Opened(w, st1.tcp[cid])
    requires forall c :: c in st1.tcp && c != cid ==> c in st.tcp && st1.tcp[c] == st.tcp[c]
    requires st1 == st.(tcp := st1.tcp, udp := st1.udp, cidAddr := st1.cidAddr, addrCid := st1.addrCid)
    ensures Greeted(w, st1)
  {
    hide Opened, OnlyGreets, Setup.Sound;
    assert forall c: CId :: Told(st1, c) <==> Told(st, c);
  }

  lemma {:induction false} DroppedGreeted(w: Setup, st: State, cid: CId, s: Socket)
    requires w.Sound() && Greeted(w, st) && !Told(st, cid) && (s.out == [] || OnlyGreets(w, s.out))
    ensures Greeted(w, Drop(st, cid, s))
  {
    hide Opened, OnlyGreets, Setup.Sound;
    assert forall c: CId :: Told(Drop(st, cid, s), c) <==> Told(st, c);
  }

  lemma {:induction false} RejectGreets(w: Setup, st: State, cid: CId, s: Socket, resp: Msg)
    requires w.Sound() && Greeted(w, st) && !Told(st, cid)
    requires Sendable(w, resp) && s.out == [] && s.room >= w.TcpSize()
    ensures RejectIncoming(w, st, cid, s, resp).Returned? && Greeted(w, RejectIncoming(w, st, cid, s, resp).value)
  {
    ResponseRoute(w, resp);
    GreetingWritten(w, s, resp);
    hide Opened, OnlyGreets, SendOn, Greeted, Setup.Sound, Told;
    DroppedGreeted(w, st, cid, SendOn(w.TcpSize(), s, Frame(RESPONSE_TYPE_MID, w.serde.ser(resp).value)).1);
  }

  lemma SaidSendable(w: Setup, hook: Hook, v: Verdict)
    requires w.Sound() && Polite(w, hook) && Said(hook, v)
    ensures v.Accepted? || v.Rejected? ==> Sendable(w, v.resp)
  {
  }

  lemma {:induction false} PendingUntold(w: Setup, st: State, i: nat)
    requires Inv(w, st) && st.history.issued < CID_COUNT && i < |st.newCons|
    ensures !Told(st, st.newCons[i].cid)
  {
    PendingUnknown(w, st, i);
  }

  lemma {:induction false} PassGreeted(w: Setup, st: State, i: nat, v: Verdict)
    requires w.Sound() && Inv(w, st) && st.history.issued < CID_COUNT && Greeted(w, st) && i < |st.newCons|
    requires v.Accepted? || v.Rejected? ==> Sendable(w, v.resp)
    ensures var o := Settle(w, st.(newCons := RemoveAt(st.newCons, i)), st.newCons[i], v);
            o.Returned? ==> Greeted(w, o.value)
  {
    var p := st.newCons[i];
    var st0 := st.(newCons := RemoveAt(st.newCons, i));
    assert p.sock.out == [] && p.sock.room >= w.TcpSize();
    PendingUntold(w, st, i);
    WithoutGreeted(w, st, i);
    assert Told(st0, p.cid) <==> Told(st, p.cid);
    hide Inv, Greeted, Told, Opened, OnlyGreets, Sendable, AcceptIncoming, RejectIncoming, Drop, Setup.Sound, RemoveAt;
    match v
    case Accepted(resp) =>
      AcceptGreets(w, st0, p.cid, p.sock, resp);
      AddedGreeted(w, st0, AcceptIncoming(w, st0, p.cid, p.sock, resp), p.cid);
    case Rejected(resp) => RejectGreets(w, st0, p.cid, p.sock, resp);
    case Dead => DroppedGreeted(w, st0, p.cid, p.sock);
    case Waiting =>
  }

  lemma {:induction false} TellGreeted(w: Setup, st: State)
    requires w.Sound() && Greeted(w, st) && Paired(st) && st.disconnected != [] && st.Alive(st.disconnected[0].0)
    ensures Greeted(w, TellFirst(st))
  {
    hide Opened, OnlyGreets, Setup.Sound;
    var st1 := TellFirst(st);
    var (cid, status) := st.disconnected[0];
    ToldMore(st, cid, status, st1);
  }

  lemma {:induction false} TakeFurther(w: Setup, st: State, cid: CId)
    requires w.Sound() && |st.msgBuff| == w.parts.MidCount() && cid in st.tcp
    ensures RecvCon(w, st, cid).Returned? ==> Further(w, st, RecvCon(w, st, cid).value.0)
  {
    Receiving.StreamsAfter(w, st, cid);
    RecvConKeeps(w, st, cid);
    DrainReads(w, cid, st.tcp[cid]);
    hide RecvCon, Drain, Setup.Sound, Greets;
  }

  lemma WorldGreeted(w: Setup, st: State, after: State)
    requires w.Sound() && Greeted(w, st) && WorldMoves(st, after) && Roomy(w, after)
    ensures Greeted(w, after)
  {
    hide Greets, OnlyGreets, Setup.Sound;
    assert forall c: CId :: Told(after, c) <==> Told(st, c);
  }

  lemma {:induction false} MoveGreeted(w: Setup, st: State, op: Op, mv: Move)
    requires w.Sound() && Inv(w, st) && Greeted(w, st) && Welcoming(w, op) && PartOf(op, mv)
    requires Do(w, st, mv).Returned? && Do(w, st, mv).value.history.issued < CID_COUNT
    ensures Greeted(w, Do(w, st, mv).value)
  {
    MoveKeeps(w, st, mv);
    var st1 := Do(w, st, mv).value;
    IssuedBefore(w, st, mv);
    hide Inv, Greeted, Further, Poll, Settle, SendTo, RecvCon, Issue, TellFirst, Later, RecvUdps, WorldMoves, Setup.Sound;
    if mv.Enroll? {
      EnrollGreeted(w, st, mv.now);
    } else if mv.Pass? {
      SaidSendable(w, op.hook, mv.verdict);
      PassGreeted(w, st, mv.idx, mv.verdict);
    } else if mv.TellOne? {
      TellGreeted(w, st);
    } else if mv.Wait? {
      WorldGreeted(w, st, mv.after);
    } else {
      MoveFurther(w, st, mv);
      FurtherGreeted(w, st, st1);
    }
  }

  lemma MoveFurther(w: Setup, st: State, mv: Move)
    requires w.Sound() && Do(w, st, mv).Returned?
    requires !mv.Enroll? && !mv.Pass? && !mv.TellOne? && !mv.Wait?
    ensures Further(w, st, Do(w, st, mv).value)
  {
    hide Opened, Poll, SendTo, RecvCon, RecvUdps, Setup.Sound, Further;
    if mv.Ask? {
      AskFurther(w, st, mv.hook, mv.c, mv.now, mv.one);
    } else if mv.Post? {
      PostFurther(w, st, mv.cid, mv.m);
    } else if mv.Shut? {
      ShutFurther(w, st, mv.cid);
    } else if mv.Take? {
      TakeFurther(w, st, mv.cid);
    } else if mv.TakeUdp? {
      UdpFurther(w, st);
    } else {
      QuietFurther(w, st, Do(w, st, mv).value);
    }
  }

  lemma {:induction false} QuietFurther(w: Setup, st: State, st1: State)
    requires w.Sound() && st1.newCons == st.newCons && st1.tcp == st.tcp
    requires st1.history.dropped == st.history.dropped && st1.history.told == st.history.told
    requires st1.listener == st.listener || (st.listener != [] && st1.listener == st.listener[1..])
    ensures Further(w, st, st1)
  {
    hide Opened, Setup.Sound;
  }

  lemma {:induction false} AskFurther(w: Setup, st: State, hook: Hook, c: TypeId, now: nat, one: bool)
    requires w.Sound() && Poll(w, hook, c, now, one, st.newCons, []).Returned?
    ensures Further(w, st, AfterPoll(st, Poll(w, hook, c, now, one, st.newCons, []).value))
  {
    hide Opened, Poll, Setup.Sound;
    PollReads(w, hook, c, now, one, st.newCons, []);
  }

  lemma {:induction false} UdpFurther(w: Setup, st: State)
    requires w.Sound() && |st.msgBuff| == w.parts.MidCount() && RecvUdps(w, st).Returned?
    ensures Further(w, st, RecvUdps(w, st).value.0)
  {
    hide Greets;
  }

  lemma {:induction false} ShutFurther(w: Setup, st: State, cid: CId)
    requires w.Sound() && cid in st.tcp
    ensures Further(w, st, st.(tcp := st.tcp[cid := ShutdownOs(st.tcp[cid]).1]))
  {
    hide Greets, Setup.Sound;
  }

  /** Over any run in which the hooks answer with sendable responses and a fresh stream
      takes one message: nothing is written to a pending stream; the first thing
      written to a registered stream, whoever sends, broadcasts or disconnects, is a
      whole response (unless the stream was shut before); and a stream that was never
      registered carries at most that one response. No assumption on the removal lists
      is needed for this. */
  lemma {:induction false} GreetedOverRuns(w: Setup, listener: seq<Option<Arrival>>, udp: UdpSocket, ops: seq<Op>, st: State)
    requires w.Complete() && Run(w, Start(w, listener, udp), ops, st) && st.history.issued < CID_COUNT
    requires Roomy(w, Start(w, listener, udp)) && forall op :: op in ops ==> Welcoming(w, op)
    ensures forall i :: 0 <= i < |st.newCons| ==> st.newCons[i].sock.out == []
    ensures forall c :: c in st.tcp ==> Opened(w, st.tcp[c])
    ensures forall c :: c in st.history.dropped && !Told(st, c) ==>
              st.history.dropped[c].out == [] || OnlyGreets(w, st.history.dropped[c].out)
    ensures forall c :: c in st.history.dropped && Told(st, c) ==> Opened(w, st.history.dropped[c])
  {
    var start := Start(w, listener, udp);
    StartInv(w, listener, udp);
    assert Greeted(w, start);
    var p, ok := (s: State) => Greeted(w, s), (op: Op) => Welcoming(w, op);
    assert Kept(w, p, ok) by {
      hide Greeted, Welcoming, Inv, Do, Setup.Sound;
      forall s: State, op: Op, mv: Move | Inv(w, s) && p(s) && ok(op) && PartOf(op, mv) && Do(w, s, mv).Returned?
                                           && Do(w, s, mv).value.history.issued < CID_COUNT
        ensures p(Do(w, s, mv).value)
      {
        MoveGreeted(w, s, op, mv);
      }
    }
    RunKeepsMore(w, start, ops, st, p, ok);
  }

  // --------------------------------------------------------------- the client's side

  /** A client whose connection message could be written and whose peer answers with a
      response gets past the check of the first message's id and holds the response
      exactly when the response comes in time. It has sent its connection message and
      nothing else. */
  lemma {:induction false} ClientConnects(w: Setup, con: Msg, resp: Msg, s: Socket, u: UdpSocket, rest: seq<byte>)
    requires w.Sound() && Faithful(w.serde) && Sendable(w, resp)
    requires con.tid in w.parts.tidMap && w.parts.tidMap[con.tid] == CONNECTION_TYPE_MID && w.serde.ser(con).Some?
    requires !s.shut && s.out == [] && Min(s.room, w.TcpSize()) >= TCP_HEADER_LEN + |w.serde.ser(con).value|
    requires Upcoming(s) == Greeting(w, resp) + rest
    ensures var (r, st) := C.NewBlocking(w, con, s, u);
            && (r == Returned(Ok(resp)) <==> Framing.InTime(s, |Greeting(w, resp)|))
            && (r.Returned? && r.value.Ok? ==> r.value.value == resp && Upcoming(st.tcp) == rest)
            && (r.Returned? && r.value.Ok? <==> st.tcp.nonblocking) && st.udp == u && st.msgBuff == seq(w.parts.MidCount(), _ => [])
            && st.status == Connected && st.tcp.out == Encode(Frame(CONNECTION_TYPE_MID, w.serde.ser(con).value))
  {
    var f := Frame(RESPONSE_TYPE_MID, w.serde.ser(resp).value);
    var s1 := AfterGreeting(w, con, s, u);
    assert Upcoming(s1) == Encode(f) + rest;
    SameTiming(s, s1);
    Framing.RecvAtFrame(w.TcpSize(), s1, f, rest);
    Framing.BlockingRecv(w.TcpSize(), s1, f, rest);
    FirstAnswer(w, con, f, s, u, rest);
    ResponseDecodes(w, resp);
    OneAnswer(w, s1);
    hide RecvOn, RecvMsgOn, C.Send, Encode, MsgTableParts.Shaped, Framing.InTime, Framing.Splits;
  }

  /** Whatever whole frame comes first: in time, a response is returned, the one id without
      a deserializer panics, and any other frame is refused as invalid data; late, the
      client gives up. Only a client that holds its response reads without blocking. */
  lemma {:induction false} FirstAnswer(w: Setup, con: Msg, f: Frame, s: Socket, u: UdpSocket, rest: seq<byte>)
    requires w.Sound() && Framing.Fits(w.TcpSize(), f) && Upcoming(s) == Encode(f) + rest
    requires con.tid in w.parts.tidMap && w.parts.tidMap[con.tid] == CONNECTION_TYPE_MID && w.serde.ser(con).Some?
    requires !s.shut && s.out == [] && Min(s.room, w.TcpSize()) >= TCP_HEADER_LEN + |w.serde.ser(con).value|
    ensures var (r, st) := C.NewBlocking(w, con, s, u);
            var m := w.serde.deser(w.parts.deser[RESPONSE_TYPE_MID].tid, f.payload);
            && (Framing.InTime(s, |Encode(f)|) ==>
                  r == if f.mid == w.parts.MidCount() then Panicked
                       else if f.mid == RESPONSE_TYPE_MID && m.Some? then Returned(Ok(m.value))
                       else Returned(Err(InvalidData)))
            && (!Framing.InTime(s, |Encode(f)|) ==> r.Returned? && r.value.Err?)
            && (st.tcp.nonblocking <==> r.Returned? && r.value.Ok?)
  {
    var s1 := AfterGreeting(w, con, s, u);
    assert Upcoming(s1) == Encode(f) + rest;
    SameTiming(s, s1);
    Framing.RecvAtFrame(w.TcpSize(), s1, f, rest);
    Framing.BlockingRecv(w.TcpSize(), s1, f, rest);
    KeepsBlocking(w, s1);
    OneAnswer(w, s1);
    if Framing.InTime(s, |Encode(f)|) {
      AnswerOf(w, s1, f);
    }
    hide RecvOn, RecvMsgOn, C.Send, Encode, Framing.InTime, Framing.Splits, MsgTableParts.Shaped;
  }

  /** What the frame that comes back is taken for. */
  lemma {:induction false} AnswerOf(w: Setup, s: Socket, f: Frame)
    requires w.Sound() && RecvOn(w.TcpSize(), s).0 == Ok(f)
    ensures var (o, m) := (RecvMsgOn(w, 0, s).0, w.serde.deser(w.parts.deser[RESPONSE_TYPE_MID].tid, f.payload));
            && (o.Panicked? <==> f.mid == w.parts.MidCount())
            && (o.Returned? && o.value.Err? ==> o.value.kind == InvalidData && !(f.mid == RESPONSE_TYPE_MID && m.Some?))
            && (o.Returned? && o.value.Ok? ==> o.value.value.mid == f.mid && (f.mid == RESPONSE_TYPE_MID ==> m == Some(o.value.value.msg.msg)))
  {
    hide RecvOn;
  }

  lemma {:induction false} KeepsBlocking(w: Setup, s: Socket)
    ensures RecvMsgOn(w, 0, s).1.nonblocking == s.nonblocking
  {
    RecvReads(w.TcpSize(), s);
    hide RecvOn;
  }

  /** Without a connection message on its way nothing is read: the error is returned. */
  lemma {:induction false} NoGreetingNoAnswer(w: Setup, con: Msg, s: Socket, u: UdpSocket)
    requires w.Sound() && C.Send(w, C.Fresh(w, s.(nonblocking := false), u), con).0.Err?
    ensures var (r, st) := C.NewBlocking(w, con, s, u);
            && r == Returned(Err(C.Send(w, C.Fresh(w, s.(nonblocking := false), u), con).0.kind))
            && st.tcp.pos == s.pos && !st.tcp.nonblocking
  {
    hide Setup.Route, Encode;
  }

  /** The stream after the connection message was written. */
  lemma {:induction false} AfterGreeting(w: Setup, con: Msg, s: Socket, u: UdpSocket) returns (s1: Socket)
    requires w.Sound() && con.tid in w.parts.tidMap && w.parts.tidMap[con.tid] == CONNECTION_TYPE_MID && w.serde.ser(con).Some?
    requires !s.shut && s.out == [] && Min(s.room, w.TcpSize()) >= TCP_HEADER_LEN + |w.serde.ser(con).value|
    ensures var b := Encode(Frame(CONNECTION_TYPE_MID, w.serde.ser(con).value));
            s1 == s.(nonblocking := false, out := b, room := s.room - |b|)
    ensures var s0 := C.Fresh(w, s.(nonblocking := false), u);
            C.Send(w, s0, con) == (Ok(()), s0.(tcp := s1))
  {
    var b := Encode(Frame(CONNECTION_TYPE_MID, w.serde.ser(con).value));
    s1 := s.(nonblocking := false, out := b, room := s.room - |b|);
    Units(b);
    assert w.Route(con) == Some((CONNECTION_TYPE_MID, TCP, w.serde.ser(con).value));
    hide Encode, Setup.Route;
  }

  lemma {:induction false} SameTiming(s: Socket, t: Socket)
    requires t == s.(nonblocking := t.nonblocking, out := t.out, room := t.room)
    ensures forall n: nat :: Framing.InTime(t, n) <==> Framing.InTime(s, n)
  {
    assert Avail(Arrive(t)) == Avail(Arrive(s)) && Avail(Arrive(Arrive(t))) == Avail(Arrive(Arrive(s)));
  }

  lemma {:induction false} ResponseDecodes(w: Setup, resp: Msg)
    requires w.Sound() && Faithful(w.serde) && Sendable(w, resp)
    ensures w.serde.deser(w.parts.deser[RESPONSE_TYPE_MID].tid, w.serde.ser(resp).value) == Some(resp)
  {
    assert w.parts.deser[RESPONSE_TYPE_MID] == DeserOf(resp.tid);
  }

  /** The first message that comes back, by the frame it came in. */
  lemma {:induction false} OneAnswer(w: Setup, s: Socket)
    ensures var (r, t) := RecvOn(w.TcpSize(), s);
            && RecvMsgOn(w, 0, s).1 == t && t.out == s.out
            && (r.Err? ==> RecvMsgOn(w, 0, s).0 == Returned(Err(r.kind)))
  {
    hide RecvOn;
  }

  /** The two halves together: a client whose stream carries what the server writes to
      a registered connection, and to which something is written, gets past the check
      of the first message and holds the response exactly when that comes in time. */
  lemma {:induction false} HandshakeCompletes(w: Setup, st: State, c: CId, con: Msg, s: Socket, u: UdpSocket)
    requires w.Sound() && Faithful(w.serde) && c in st.tcp && Opened(w, st.tcp[c]) && st.tcp[c].out != []
    requires con.tid in w.parts.tidMap && w.parts.tidMap[con.tid] == CONNECTION_TYPE_MID && w.serde.ser(con).Some?
    requires !s.shut && s.out == [] && Min(s.room, w.TcpSize()) >= TCP_HEADER_LEN + |w.serde.ser(con).value|
    requires s.feed.sent == st.tcp[c].out && s.pos == 0
    ensures exists resp :: Sendable(w, resp) && Greeting(w, resp) <= st.tcp[c].out &&
              (C.NewBlocking(w, con, s, u).0 == Returned(Ok(resp)) <==> Framing.InTime(s, |Greeting(w, resp)|))
  {
    var out := st.tcp[c].out;
    var resp :| Sendable(w, resp) && Greeting(w, resp) <= out;
    var n := |Greeting(w, resp)|;
    assert Upcoming(s) == out == Greeting(w, resp) + out[n..];
    hide C.NewBlocking, Greeting, Sendable, Setup.Sound;
    ClientConnects(w, con, resp, s, u, out[n..]);
  }
}
