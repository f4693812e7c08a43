/** Runs of the server: any calls, in any order, with anything arriving in between. */
module Runs {
  import opened Prelude
  import opened Net
  import opened MessageTable
  import opened Tcp
  import opened Udp
  import opened Inbound
  import opened ServerModel
  import opened Lifecycle
  import Disconnects
  import Retiring

  /** Between two calls the peers write, bytes arrive and the sockets change their mind. */
  ghost predicate SocketMoves(s: Socket, t: Socket) {
    && t == s.(feed := t.feed, room := t.room, shutFails := t.shutFails)
    && s.feed.sent <= t.feed.sent && s.feed.visible <= t.feed.visible
  }

  ghost predicate WorldMoves(st: State, st1: State) {
    && st1 == st.(newCons := st1.newCons, tcp := st1.tcp, listener := st1.listener, udp := st1.udp)
    && st1.udp.sent == st.udp.sent && |st1.newCons| == |st.newCons|
    && (forall i :: 0 <= i < |st.newCons| ==>
          SocketMoves(st.newCons[i].sock, st1.newCons[i].sock) && st1.newCons[i] == st.newCons[i].(sock := st1.newCons[i].sock))
    && (forall c :: c in st1.tcp <==> c in st.tcp)
    && (forall c :: c in st.tcp ==> SocketMoves(st.tcp[c], st1.tcp[c]))
  }

  /** The calls a program can make, and what the world does in between. `Send` is
      `send_to`, `broadcast` or `send_spec`, with the ids it visits in their order. */
  datatype Op =
    | New(hook: Hook, c: TypeId, now: nat, one: bool)
    | Send(cids: seq<CId>, m: Msg)
    | Discon(cid: CId, m: Msg)
    | TakeDisconnect
    | TakeDisconnects
    | Recv(order: seq<CId>)
    | Clear
    | World(after: State)

  /** What an operation needs: an order visits every live id once, and the world obeys
      its rules. */
  ghost predicate Legal(st: State, op: Op) {
    match op
    case Recv(order) => NoDup(order) && forall c :: c in order <==> c in st.tcp
    case World(after) => WorldMoves(st, after)
    case _ => true
  }

  ghost function Step(w: Setup, st: State, op: Op): Outcome<State>
    requires w.Sound() && Fit(w, st) && Legal(st, op)
  {
    match op
    case New(hook, c, now, one) =>
      var o :- HandleNew(w, st, hook, c, now, one);
      Returned(o.0)
    case Send(cids, m) => Returned(SendEach(w, st, cids, m).1)
    case Discon(cid, m) =>
      var o :- Disconnect(w, st, cid, m);
      Returned(o.0)
    case TakeDisconnect => Returned(HandleDisconnect(st).1)
    case TakeDisconnects => Returned(HandleDisconnects(st).1)
    case Recv(order) =>
      var o :- RecvMsgs(w, st, order);
      Returned(o.0)
    case Clear => Returned(ClearMsgs(st))
    case World(after) => Returned(after)
  }

  /** `st1` can be reached from `st` by `ops`, none of which panicked. */
  ghost predicate Run(w: Setup, st: State, ops: seq<Op>, st1: State)
    requires w.Sound()
    decreases |ops|
  {
    if ops == [] then st1 == st
    else
      && Fit(w, st) && Legal(st, ops[0])
      && Step(w, st, ops[0]).Returned?
      && Run(w, Step(w, st, ops[0]).value, ops[1..], st1)
  }

  // -------------------------------------------------------------- calls as small moves

  /** The small moves every call is made of. */
  datatype Move =
    | Listen
    | Enroll(now: nat)
    | Ask(hook: Hook, c: TypeId, now: nat, one: bool)
    | Pass(idx: nat, verdict: Verdict)
    | Post(cid: CId, m: Msg)
    | Shut(cid: CId)
    | Note(cid: CId, status: Status)
    | Skip
    | TellOne
    | Take(cid: CId)
    | TakeUdp
    | Empty
    | Wait(after: State)

  /** What a move does; `Panicked` where it cannot be made. */
  ghost function Do(w: Setup, st: State, mv: Move): Outcome<State>
    requires w.Sound()
  {
    match mv
    case Listen => if st.listener == [] then Panicked else Returned(st.(listener := st.listener[1..]))
    case Enroll(now) =>
      if st.listener == [] || st.listener[0].None? || |st.newCons| >= w.config.maxConHandle then Panicked
      else Returned(Issue(st.(listener := st.listener[1..]), st.listener[0].value, now))
    case Ask(hook, c, now, one) =>
      var p :- Poll(w, hook, c, now, one, st.newCons, []);
      Returned(AfterPoll(st, p))
    case Pass(i, v) =>
      if i >= |st.newCons| || v == Waiting then Panicked
      else Settle(w, st.(newCons := RemoveAt(st.newCons, i)), st.newCons[i], v)
    case Post(cid, m) => Returned(SendTo(w, st, cid, m).1)
    case Shut(cid) => if cid !in st.tcp then Panicked else Returned(st.(tcp := st.tcp[cid := ShutdownOs(st.tcp[cid]).1]))
    case Note(cid, status) => if cid !in st.tcp then Panicked else Returned(Queue(st, cid, status))
    case Skip =>
      if st.disconnected == [] || st.Alive(st.disconnected[0].0) then Panicked
      else Returned(st.(disconnected := st.disconnected[1..]))
    case TellOne =>
      if !Paired(st) || st.disconnected == [] || !st.Alive(st.disconnected[0].0) then Panicked else Returned(TellFirst(st))
    case Take(cid) =>
      if |st.msgBuff| != w.parts.MidCount() || cid !in st.tcp then Panicked
      else
        var o :- RecvCon(w, st, cid);
        Returned(o.0)
    case TakeUdp =>
      if |st.msgBuff| != w.parts.MidCount() then Panicked
      else
        var o :- RecvUdps(w, st);
        Returned(o.0)
    case Empty => Returned(ClearMsgs(st))
    case Wait(after) => if WorldMoves(st, after) then Returned(after) else Panicked
  }

  ghost function DoAll(w: Setup, st: State, mvs: seq<Move>): Outcome<State>
    requires w.Sound()
    decreases |mvs|
  {
    if mvs == [] then Returned(st)
    else
      var st1 :- Do(w, st, mvs[0]);
      DoAll(w, st1, mvs[1..])
  }

  lemma {:induction false} DoMore(w: Setup, st: State, a: seq<Move>, b: seq<Move>)
    requires w.Sound()
    ensures DoAll(w, st, a + b) == var o := DoAll(w, st, a); if o.Panicked? then Panicked else DoAll(w, o.value, b)
    decreases |a|
  {
    hide Do;
    if a == [] {
      Units(b);
    } else {
      assert (a + b)[0] == a[0] && (a + b)[1..] == a[1..] + b;
      if Do(w, st, a[0]).Returned? {
        DoMore(w, Do(w, st, a[0]).value, a[1..], b);
      }
    }
  }

  lemma DoFirst(w: Setup, st: State, mv: Move, rest: seq<Move>)
    requires w.Sound()
    ensures DoAll(w, st, [mv] + rest) == var o := Do(w, st, mv); if o.Panicked? then Panicked else DoAll(w, o.value, rest)
    ensures DoAll(w, st, []) == Returned(st)
  {
    hide Do;
    assert ([mv] + rest)[1..] == rest;
  }

  /** The answer of a hook that led to a verdict. */
  ghost predicate Said(hook: Hook, v: Verdict) {
    match v
    case Accepted(resp) => exists calls, cid, m :: hook(calls, cid, m) == (true, resp)
    case Rejected(resp) => exists calls, cid, m :: hook(calls, cid, m) == (false, resp)
    case _ => true
  }

  /** The moves a call is made of. */
  ghost predicate PartOf(op: Op, mv: Move) {
    match mv
    case Listen => op.New?
    case Enroll(_) => op.New?
    case Ask(hook, c, now, one) => op == Op.New(hook, c, now, one)
    case Pass(_, v) => op.New? && Said(op.hook, v)
    case Post(_, _) => op.Send? || op.Discon?
    case Shut(_) => op.Discon?
    case Note(_, status) => op.Discon? && status == Closed
    case Skip => op.TakeDisconnect? || op.TakeDisconnects?
    case TellOne => op.TakeDisconnect? || op.TakeDisconnects?
    case Take(_) => op.Recv?
    case TakeUdp => op.Recv?
    case Empty => op.Clear?
    case Wait(after) => op == World(after)
  }

  ghost predicate PartsOf(op: Op, mvs: seq<Move>) {
    forall mv :: mv in mvs ==> PartOf(op, mv)
  }

  lemma PartsMore(op: Op, a: seq<Move>, b: seq<Move>)
    ensures PartsOf(op, []) && (PartsOf(op, a) && PartsOf(op, b) ==> PartsOf(op, a + b))
  {
  }

  lemma PartsOne(op: Op, mv: Move)
    ensures PartsOf(op, [mv]) <==> PartOf(op, mv)
  {
    assert mv in [mv];
  }

  lemma {:induction false} StartIncomingMoves(w: Setup, st: State, now: nat, op: Op) returns (mvs: seq<Move>)
    requires w.Sound() && op.New?
    ensures DoAll(w, st, mvs) == Returned(StartIncoming(w, st, now)) && PartsOf(op, mvs)
    decreases |st.listener|
  {
    mvs := [];
    if |st.newCons| < w.config.maxConHandle && st.listener != [] {
      var st1 := st.(listener := st.listener[1..]);
      if st.listener[0].None? {
        mvs := [Listen];
        DoFirst(w, st, Listen, []);
        DoFirst(w, st1, Listen, []);
      } else {
        var st2 := Issue(st1, st.listener[0].value, now);
        var rest := StartIncomingMoves(w, st2, now, op);
        hide Issue, Setup.Sound;
        DoFirst(w, st, Enroll(now), rest);
        PartsOne(op, Enroll(now));
        PartsMore(op, [Enroll(now)], rest);
        mvs := [Enroll(now)] + rest;
      }
    }
  }

  lemma {:induction false} SendEachMoves(w: Setup, st: State, cids: seq<CId>, m: Msg, op: Op) returns (mvs: seq<Move>)
    requires w.Sound() && op.Send?
    ensures DoAll(w, st, mvs) == Returned(SendEach(w, st, cids, m).1) && PartsOf(op, mvs)
    decreases |cids|
  {
    hide SendTo, Setup.Sound;
    mvs := [];
    if cids != [] {
      var (r, st1) := SendTo(w, st, cids[0], m);
      var mv, rest := Post(cids[0], m), [];
      if r.Ok? {
        rest := SendEachMoves(w, st1, cids[1..], m, op);
      }
      DoFirst(w, st, mv, rest);
      DoFirst(w, st1, mv, rest);
      PartsOne(op, mv);
      PartsMore(op, [mv], rest);
      mvs := [mv] + rest;
    }
  }

  lemma {:induction false} CarryMoves(w: Setup, st: State, plan: seq<Job>, op: Op) returns (mvs: seq<Move>)
    requires w.Sound() && op.New? && Carry(w, st, plan).Returned?
    requires forall j :: j in plan ==> j.verdict != Waiting && Said(op.hook, j.verdict)
    ensures DoAll(w, st, mvs) == Carry(w, st, plan) && PartsOf(op, mvs)
    decreases |plan|
  {
    hide Settle, Said, Setup.Sound;
    mvs := [];
    if plan != [] {
      var i, v := plan[0].idx, plan[0].verdict;
      assert plan[0] in plan;
      var st1 := Settle(w, st.(newCons := RemoveAt(st.newCons, i)), st.newCons[i], v).value;
      var rest := CarryMoves(w, st1, plan[1..], op);
      DoFirst(w, st, Pass(i, v), rest);
      PartsOne(op, Pass(i, v));
      PartsMore(op, [Pass(i, v)], rest);
      mvs := [Pass(i, v)] + rest;
    }
  }

  /** Every verdict but `Waiting` and `Dead` is an answer of the hook. */
  lemma {:induction false} PollSaid(w: Setup, hook: Hook, c: TypeId, now: nat, one: bool, ps: seq<Pending>, calls: seq<ConCall>)
    requires w.Sound()
    ensures var o := Poll(w, hook, c, now, one, ps, calls);
            o.Returned? ==> forall v :: v in o.value.verdicts ==> Said(hook, v)
    decreases |ps|
  {
    hide PollCon, Said, Setup.Sound;
    if ps != [] {
      var (o, s) := PollCon(w, c, ps[0].sock, ps[0].since, now);
      if o.Returned? {
        var calls1, v := calls, if o.value.Err? && o.value.kind == WouldBlock then Waiting else Dead;
        if o.value.Ok? {
          var (accept, resp) := hook(calls, ps[0].cid, o.value.value);
          calls1 := calls + [ConCall(ps[0].cid, o.value.value, accept, resp)];
          v := if accept then Accepted(resp) else Rejected(resp);
        }
        PollSaid(w, hook, c, now, one, ps[1..], calls1);
        NotSaying(hook);
        if o.value.Ok? {
          Answer(hook, calls, ps[0].cid, o.value.value);
        }
        assert Said(hook, v);
      }
    }
  }

  lemma NotSaying(hook: Hook)
    ensures Said(hook, Waiting) && Said(hook, Dead)
  {
  }

  lemma Answer(hook: Hook, calls: seq<ConCall>, cid: CId, m: Msg)
    ensures var (accept, resp) := hook(calls, cid, m); Said(hook, if accept then Accepted(resp) else Rejected(resp))
  {
  }

  lemma PlanFrom(vs: seq<Verdict>, j: Job)
    requires j in Plan(vs)
    ensures j.verdict in vs && j.verdict != Waiting
  {
    Retiring.PlanIs(vs);
  }

  lemma {:induction false} HandleNewMoves(w: Setup, st: State, op: Op) returns (mvs: seq<Move>)
    requires w.Sound() && op.New? && HandleNew(w, st, op.hook, op.c, op.now, op.one).Returned?
    ensures DoAll(w, st, mvs) == Returned(HandleNew(w, st, op.hook, op.c, op.now, op.one).value.0) && PartsOf(op, mvs)
  {
    hide StartIncoming, Poll, Carry, Plan, Said, Setup.Sound;
    mvs := StartIncomingMoves(w, st, op.now, op);
    var st1 := StartIncoming(w, st, op.now);
    if st1.newCons != [] {
      var ask := Ask(op.hook, op.c, op.now, op.one);
      var p := Poll(w, op.hook, op.c, op.now, op.one, st1.newCons, []).value;
      var st2 := AfterPoll(st1, p);
      PollSaid(w, op.hook, op.c, op.now, op.one, st1.newCons, []);
      forall j | j in Plan(p.verdicts)
        ensures j.verdict != Waiting && Said(op.hook, j.verdict)
      {
        PlanFrom(p.verdicts, j);
      }
      var rest := CarryMoves(w, st2, Plan(p.verdicts), op);
      DoFirst(w, st1, ask, rest);
      PartsOne(op, ask);
      PartsMore(op, [ask], rest);
      DoMore(w, st, mvs, [ask] + rest);
      PartsMore(op, mvs, [ask] + rest);
      mvs := mvs + ([ask] + rest);
    }
  }

  lemma {:induction false} DisconnectMoves(w: Setup, st: State, op: Op) returns (mvs: seq<Move>)
    requires w.Sound() && op.Discon? && Disconnect(w, st, op.cid, op.m).Returned?
    ensures DoAll(w, st, mvs) == Returned(Disconnect(w, st, op.cid, op.m).value.0) && PartsOf(op, mvs)
  {
    hide SendTo, Setup.Sound;
    mvs := [];
    DoFirst(w, st, Skip, []);
    if st.Alive(op.cid) {
      var (r, st1) := SendTo(w, st, op.cid, op.m);
      var post, shut, note := Post(op.cid, op.m), Shut(op.cid), Note(op.cid, Closed);
      DoFirst(w, st1, Skip, []);
      mvs := [post];
      DoFirst(w, st, post, []);
      if r.Ok? {
        var (closed, s) := ShutdownOs(st1.tcp[op.cid]);
        var st2 := st1.(tcp := st1.tcp[op.cid := s]);
        var rest := if closed.Ok? then [note] else [];
        DoFirst(w, st2, note, []);
        DoFirst(w, Queue(st2, op.cid, Closed), note, []);
        DoFirst(w, st1, shut, rest);
        DoFirst(w, st, post, [shut] + rest);
        mvs := [post] + ([shut] + rest);
      }
    }
  }

  lemma {:induction false} HandleDisconnectMoves(w: Setup, st: State, op: Op) returns (mvs: seq<Move>)
    requires w.Sound() && op.TakeDisconnect? && Paired(st)
    ensures DoAll(w, st, mvs) == Returned(HandleDisconnect(st).1) && PartsOf(op, mvs)
    decreases |st.disconnected|
  {
    hide Tell, Paired, Setup.Sound;
    mvs := [];
    if st.disconnected != [] {
      var st1 := st.(disconnected := st.disconnected[1..]);
      Disconnects.PairedAfter(st);
      if st.Alive(st.disconnected[0].0) {
        mvs := [TellOne];
        DoFirst(w, st, TellOne, []);
        DoFirst(w, TellFirst(st), TellOne, []);
      } else {
        var rest := HandleDisconnectMoves(w, st1, op);
        DoFirst(w, st, Skip, rest);
        PartsOne(op, Skip);
        PartsMore(op, [Skip], rest);
        mvs := [Skip] + rest;
      }
    }
  }

  lemma {:induction false} HandleDisconnectsMoves(w: Setup, st: State, op: Op) returns (mvs: seq<Move>)
    requires w.Sound() && op.TakeDisconnects? && Paired(st)
    ensures DoAll(w, st, mvs) == Returned(HandleDisconnects(st).1) && PartsOf(op, mvs)
    decreases |st.disconnected|
  {
    hide Tell, Paired, Setup.Sound;
    mvs := [];
    if st.disconnected != [] {
      var st1 := st.(disconnected := st.disconnected[1..]);
      Disconnects.PairedAfter(st);
      var mv, rest;
      if st.Alive(st.disconnected[0].0) {
        mv := TellOne;
        rest := HandleDisconnectsMoves(w, TellFirst(st), op);
      } else {
        mv := Skip;
        rest := HandleDisconnectsMoves(w, st1, op);
      }
      DoFirst(w, st, mv, rest);
      PartsOne(op, mv);
      PartsMore(op, [mv], rest);
      mvs := [mv] + rest;
    }
  }

  lemma {:induction false} RecvTcpsMoves(w: Setup, st: State, cids: seq<CId>, op: Op) returns (mvs: seq<Move>)
    requires w.Sound() && op.Recv? && |st.msgBuff| == w.parts.MidCount() && forall c :: c in cids ==> c in st.tcp
    requires RecvTcps(w, st, cids).Returned?
    ensures DoAll(w, st, mvs) == Returned(RecvTcps(w, st, cids).value.0) && PartsOf(op, mvs)
    decreases |cids|
  {
    hide RecvCon, Setup.Sound;
    mvs := [];
    if cids != [] {
      RecvConKeeps(w, st, cids[0]);
      var st1 := RecvCon(w, st, cids[0]).value.0;
      var rest := RecvTcpsMoves(w, st1, cids[1..], op);
      DoFirst(w, st, Take(cids[0]), rest);
      PartsOne(op, Take(cids[0]));
      PartsMore(op, [Take(cids[0])], rest);
      mvs := [Take(cids[0])] + rest;
    }
  }

  lemma {:induction false} RecvMsgsMoves(w: Setup, st: State, op: Op) returns (mvs: seq<Move>)
    requires w.Sound() && op.Recv? && |st.msgBuff| == w.parts.MidCount() && forall c :: c in op.order ==> c in st.tcp
    requires RecvMsgs(w, st, op.order).Returned?
    ensures DoAll(w, st, mvs) == Returned(RecvMsgs(w, st, op.order).value.0) && PartsOf(op, mvs)
  {
    hide RecvTcps, RecvUdps, Setup.Sound;
    RecvTcpsKeeps(w, st, op.order);
    mvs := RecvTcpsMoves(w, st, op.order, op);
    var st1 := RecvTcps(w, st, op.order).value.0;
    DoFirst(w, st1, TakeUdp, []);
    DoFirst(w, RecvUdps(w, st1).value.0, TakeUdp, []);
    DoMore(w, st, mvs, [TakeUdp]);
    PartsOne(op, TakeUdp);
    PartsMore(op, mvs, [TakeUdp]);
    mvs := mvs + [TakeUdp];
  }

  /** Every call is made of the moves that belong to it. */
  lemma StepMoves(w: Setup, st: State, op: Op) returns (mvs: seq<Move>)
    requires w.Sound() && Fit(w, st) && Legal(st, op) && Step(w, st, op).Returned?
    ensures DoAll(w, st, mvs) == Step(w, st, op) && PartsOf(op, mvs)
  {
    hide HandleNew, SendEach, Disconnect, HandleDisconnect, HandleDisconnects, RecvMsgs, WorldMoves, Setup.Sound;
    match op
    case New(_, _, _, _) => mvs := HandleNewMoves(w, st, op);
    case Send(cids, m) => mvs := SendEachMoves(w, st, cids, m, op);
    case Discon(_, _) => mvs := DisconnectMoves(w, st, op);
    case TakeDisconnect => mvs := HandleDisconnectMoves(w, st, op);
    case TakeDisconnects => mvs := HandleDisconnectsMoves(w, st, op);
    case Recv(_) => mvs := RecvMsgsMoves(w, st, op);
    case Clear =>
      mvs := [Empty];
      DoFirst(w, st, Empty, []);
      DoFirst(w, ClearMsgs(st), Empty, []);
    case World(after) =>
      mvs := [Wait(after)];
      DoFirst(w, st, Wait(after), []);
      DoFirst(w, after, Wait(after), []);
  }

  // ------------------------------------------------------------ every move keeps it

  lemma SendToSame(w: Setup, st: State, cid: CId, m: Msg)
    requires w.Sound()
    ensures SameStages(st, SendTo(w, st, cid, m).1)
    ensures SendTo(w, st, cid, m).1.msgBuff == st.msgBuff && SendTo(w, st, cid, m).1.newCons == st.newCons
    ensures SendTo(w, st, cid, m).1.history == st.history
  {
  }

  lemma {:induction false} SettleIs(w: Setup, st: State, i: nat, v: Verdict)
    requires w.Sound() && Fit(w, st) && i < |st.newCons| && v != Waiting
    requires var c := st.newCons[i].cid; c !in st.tcp && c !in st.history.dropped
    ensures var o := Settle(w, st.(newCons := RemoveAt(st.newCons, i)), st.newCons[i], v);
            o.Returned? ==> Settled(st, i, o.value) && (st.newCons[i].cid in o.value.tcp <==> v.Accepted?)
  {
    var p := st.newCons[i];
    var st0 := st.(newCons := RemoveAt(st.newCons, i));
    if v.Accepted? {
      SendToSame(w, AddTcpCon(st0, p.cid, p.sock), p.cid, v.resp);
    }
  }

  lemma {:induction false} SettleKeeps(w: Setup, st: State, i: nat, v: Verdict)
    requires w.Sound() && Inv(w, st) && i < |st.newCons| && v != Waiting
    ensures var o := Settle(w, st.(newCons := RemoveAt(st.newCons, i)), st.newCons[i], v);
            o.Returned? ==> Inv(w, o.value) && Later(st, o.value)
  {
    var o := Settle(w, st.(newCons := RemoveAt(st.newCons, i)), st.newCons[i], v);
    if o.Returned? {
      if st.history.issued < CID_COUNT {
        assert IsPending(st, st.newCons[i].cid);
        SettleIs(w, st, i, v);
        SettledKeeps(w, st, i, o.value);
      } else {
        SettleFits(w, st, i, v);
      }
    }
  }

  /** Once the ids have wrapped around only the shape is left. */
  lemma {:induction false} SettleFits(w: Setup, st: State, i: nat, v: Verdict)
    requires w.Sound() && Fit(w, st) && i < |st.newCons|
    ensures var o := Settle(w, st.(newCons := RemoveAt(st.newCons, i)), st.newCons[i], v);
            o.Returned? ==>
              && Fit(w, o.value) && |o.value.newCons| == |st.newCons| - 1
              && o.value.history == st.history.(dropped := o.value.history.dropped)
  {
    var p := st.newCons[i];
    var st0 := st.(newCons := RemoveAt(st.newCons, i));
    if v.Accepted? {
      SendToSame(w, AddTcpCon(st0, p.cid, p.sock), p.cid, v.resp);
    }
  }

  lemma PollConReads(w: Setup, c: TypeId, s: Socket, since: nat, now: nat)
    requires w.Sound()
    ensures OnlyRead(s, PollCon(w, c, s, since, now).1)
  {
    RecvReads(w.TcpSize(), s);
    hide MsgTableParts.Shaped, RecvOn;
  }

  ghost predicate Polls(ps: seq<Pending>, qs: seq<Pending>) {
    |qs| == |ps| && forall i :: 0 <= i < |ps| ==> qs[i] == ps[i].(sock := qs[i].sock) && OnlyRead(ps[i].sock, qs[i].sock)
  }

  lemma {:induction false} PollsFirst(ps: seq<Pending>, q: Pending, rest: seq<Pending>)
    requires ps != [] && q == ps[0].(sock := q.sock) && OnlyRead(ps[0].sock, q.sock) && Polls(ps[1..], rest)
    ensures Polls(ps, [q] + rest)
  {
    hide OnlyRead;
    assert forall i :: 0 < i < |ps| ==> ps[i] == ps[1..][i - 1];
  }

  lemma PollsSame(ps: seq<Pending>)
    ensures Polls(ps, ps)
  {
  }

  lemma {:induction false} PollReads(w: Setup, hook: Hook, c: TypeId, now: nat, one: bool, ps: seq<Pending>, calls: seq<ConCall>)
    requires w.Sound()
    ensures var o := Poll(w, hook, c, now, one, ps, calls);
            o.Returned? ==> Polls(ps, o.value.cons)
    decreases |ps|
  {
    hide PollCon, OnlyRead, Polls, MsgTableParts.Shaped;
    if ps == [] {
      PollsSame(ps);
    } else {
      var (o, s) := PollCon(w, c, ps[0].sock, ps[0].since, now);
      var q := ps[0].(sock := s);
      PollConReads(w, c, ps[0].sock, ps[0].since, now);
      if o.Returned? {
        var calls1 := calls;
        if o.value.Ok? {
          var (accept, resp) := hook(calls, ps[0].cid, o.value.value);
          calls1 := calls + [ConCall(ps[0].cid, o.value.value, accept, resp)];
        }
        PollReads(w, hook, c, now, one, ps[1..], calls1);
        PollsSame(ps[1..]);
        PollsFirst(ps, q, ps[1..]);
        if Poll(w, hook, c, now, one, ps[1..], calls1).Returned? {
          PollsFirst(ps, q, Poll(w, hook, c, now, one, ps[1..], calls1).value.cons);
        }
      }
    }
  }

  lemma {:induction false} RecvConKeepsInv(w: Setup, st: State, cid: CId)
    requires w.Sound() && Inv(w, st) && cid in st.tcp
    ensures RecvCon(w, st, cid).Returned? ==> Inv(w, RecvCon(w, st, cid).value.0) && Later(st, RecvCon(w, st, cid).value.0)
  {
    var d := Drain(w, cid, st.tcp[cid]);
    if d.Returned? {
      var st1 := Reading(st, cid, d.value.sock, d.value.got);
      SameKeeps(w, st, st1);
      if d.value.end.Some? {
        QueueKeeps(w, st1, cid, d.value.end.value);
        LaterTrans(st, st1, Queue(st1, cid, d.value.end.value));
      }
    }
  }

  lemma {:induction false} AskKeeps(w: Setup, st: State, hook: Hook, c: TypeId, now: nat, one: bool)
    requires w.Sound() && Inv(w, st) && Poll(w, hook, c, now, one, st.newCons, []).Returned?
    ensures var st1 := AfterPoll(st, Poll(w, hook, c, now, one, st.newCons, []).value); Inv(w, st1) && Later(st, st1)
  {
    var p := Poll(w, hook, c, now, one, st.newCons, []).value;
    PollReads(w, hook, c, now, one, st.newCons, []);
    assert SameStages(st, AfterPoll(st, p));
    SameKeeps(w, st, AfterPoll(st, p));
  }

  lemma MoveKeeps(w: Setup, st: State, mv: Move)
    requires w.Sound() && Inv(w, st) && Do(w, st, mv).Returned?
    ensures Inv(w, Do(w, st, mv).value) && Later(st, Do(w, st, mv).value)
  {
    hide Later, Poll, Settle, SendTo, RecvCon, RecvUdps, Issue, Staged, Queued, TellFirst, MsgTableParts.Shaped;
    var st1 := Do(w, st, mv).value;
    match mv
    case Listen => SameKeeps(w, st, st1);
    case Enroll(now) =>
      var st0 := st.(listener := st.listener[1..]);
      SameKeeps(w, st, st0);
      IssueKeeps(w, st0, st.listener[0].value, now);
      LaterTrans(st, st0, st1);
    case Ask(hook, c, now, one) => AskKeeps(w, st, hook, c, now, one);
    case Pass(i, v) => SettleKeeps(w, st, i, v);
    case Post(cid, m) =>
      SendToSame(w, st, cid, m);
      SameKeeps(w, st, st1);
    case Shut(cid) => SameKeeps(w, st, st1);
    case Note(cid, status) => QueueKeeps(w, st, cid, status);
    case Skip => SkipKeeps(w, st);
    case TellOne => TellKeeps(w, st);
    case Take(cid) => RecvConKeepsInv(w, st, cid);
    case TakeUdp =>
      UdpSame(w, st);
      SameKeeps(w, st, st1);
    case Empty => SameKeeps(w, st, st1);
    case Wait(after) => SameKeeps(w, st, after);
  }

  lemma {:induction false} UdpSame(w: Setup, st: State)
    requires w.Sound() && |st.msgBuff| == w.parts.MidCount() && RecvUdps(w, st).Returned?
    ensures SameStages(st, RecvUdps(w, st).value.0)
  {
  }

  lemma {:induction false} MovesKeep(w: Setup, st: State, mvs: seq<Move>)
    requires w.Sound() && Inv(w, st) && DoAll(w, st, mvs).Returned?
    ensures Inv(w, DoAll(w, st, mvs).value) && Later(st, DoAll(w, st, mvs).value)
    decreases |mvs|
  {
    if mvs == [] {
      SameKeeps(w, st, st);
    } else {
      MoveKeeps(w, st, mvs[0]);
      var st1 := Do(w, st, mvs[0]).value;
      hide Do, Inv, Later;
      MovesKeep(w, st1, mvs[1..]);
      LaterTrans(st, st1, DoAll(w, st1, mvs[1..]).value);
    }
  }

  /** Every call keeps the invariant and moves no id back. */
  lemma StepKeeps(w: Setup, st: State, op: Op)
    requires w.Sound() && Inv(w, st) && Legal(st, op)
    ensures Step(w, st, op).Returned? ==> Inv(w, Step(w, st, op).value) && Later(st, Step(w, st, op).value)
  {
    hide Later, Step, DoAll;
    if Step(w, st, op).Returned? {
      var mvs := StepMoves(w, st, op);
      MovesKeep(w, st, mvs);
    }
  }

  /** A live id always has a stream, so `disconnect` never panics. */
  lemma DisconnectReturns(w: Setup, st: State, cid: CId, m: Msg)
    requires w.Sound() && Fit(w, st)
    ensures Disconnect(w, st, cid, m).Returned?
  {
    SendToSame(w, st, cid, m);
  }

  lemma StartInv(w: Setup, listener: seq<Option<Arrival>>, udp: UdpSocket)
    requires w.Sound()
    ensures Inv(w, Start(w, listener, udp)) <==> w.Complete()
  {
  }

  /** From any state with the invariant, any run keeps it, and what the run did to an
      id can only be to move it forward. */
  lemma {:induction false} RunKeeps(w: Setup, st: State, ops: seq<Op>, st1: State)
    requires w.Sound() && Inv(w, st) && Run(w, st, ops, st1)
    ensures Inv(w, st1) && Later(st, st1)
    decreases |ops|
  {
    if ops == [] {
      SameKeeps(w, st, st);
    } else {
      StepKeeps(w, st, ops[0]);
      var st2 := Step(w, st, ops[0]).value;
      hide Inv, Later, Step, Legal, Fit;
      RunKeeps(w, st2, ops[1..], st1);
      LaterTrans(st, st2, st1);
    }
  }

  lemma IssuedBefore(w: Setup, st: State, mv: Move)
    requires w.Sound() && Inv(w, st) && Do(w, st, mv).Returned?
    ensures st.history.issued <= Do(w, st, mv).value.history.issued
  {
    MoveKeeps(w, st, mv);
  }

  lemma DoTake(w: Setup, st: State, c: CId)
    requires w.Sound() && Do(w, st, Take(c)).Returned?
    ensures |st.msgBuff| == w.parts.MidCount() && c in st.tcp
    ensures RecvCon(w, st, c).Returned? && Do(w, st, Take(c)).value == RecvCon(w, st, c).value.0
  {
    hide RecvCon;
  }

  lemma DoWait(w: Setup, st: State, after: State)
    requires w.Sound() && Do(w, st, Wait(after)).Returned?
    ensures WorldMoves(st, after) && Do(w, st, Wait(after)).value == after
  {
    hide WorldMoves;
  }

  /** Buffers change only by receiving and clearing. */
  lemma BuffersKept(w: Setup, st: State, mv: Move)
    requires w.Sound() && Do(w, st, mv).Returned? && !mv.Take? && !mv.TakeUdp? && !mv.Empty?
    ensures Do(w, st, mv).value.msgBuff == st.msgBuff
  {
    hide Poll, RecvOn, SendOn, Setup.Route, SendToOn;
  }

  /** `p` survives every move of the calls `ok` admits, while ids do not wrap. */
  ghost predicate Kept(w: Setup, p: State -> bool, ok: Op -> bool)
    requires w.Sound()
  {
    forall st: State, op: Op, mv: Move {:trigger Do(w, st, mv), PartOf(op, mv)} ::
      Inv(w, st) && p(st) && ok(op) && PartOf(op, mv) && Do(w, st, mv).Returned?
      && Do(w, st, mv).value.history.issued < CID_COUNT
      ==> p(Do(w, st, mv).value)
  }

  lemma {:induction false} MovesKeepMore(w: Setup, st: State, mvs: seq<Move>, op: Op, p: State -> bool, ok: Op -> bool)
    requires w.Sound() && Inv(w, st) && DoAll(w, st, mvs).Returned? && DoAll(w, st, mvs).value.history.issued < CID_COUNT
    requires Kept(w, p, ok) && p(st) && ok(op) && PartsOf(op, mvs)
    ensures p(DoAll(w, st, mvs).value)
    decreases |mvs|
  {
    hide Do, Inv, PartOf;
    if mvs != [] {
      MoveKeeps(w, st, mvs[0]);
      var st1 := Do(w, st, mvs[0]).value;
      MovesKeep(w, st1, mvs[1..]);
      assert PartOf(op, mvs[0]);
      MovesKeepMore(w, st1, mvs[1..], op, p, ok);
    }
  }

  /** The way to show further invariants of runs. */
  lemma {:induction false} RunKeepsMore(w: Setup, st: State, ops: seq<Op>, st1: State, p: State -> bool, ok: Op -> bool)
    requires w.Sound() && Inv(w, st) && Run(w, st, ops, st1) && st1.history.issued < CID_COUNT
    requires Kept(w, p, ok) && p(st) && forall op :: op in ops ==> ok(op)
    ensures p(st1)
    decreases |ops|
  {
    hide Step, Legal, Inv, Kept, PartsOf, DoAll;
    if ops != [] {
      StepKeeps(w, st, ops[0]);
      var mvs := StepMoves(w, st, ops[0]);
      var st2 := Step(w, st, ops[0]).value;
      RunKeeps(w, st2, ops[1..], st1);
      assert ops[0] in ops;
      MovesKeepMore(w, st, mvs, ops[0], p, ok);
      RunKeepsMore(w, st2, ops[1..], st1, p, ok);
    }
  }

  /** The life of the ids over whole runs from the start, as long as fewer than 2^32
      were issued: the ids issued are 1, 2, 3, …; each is in exactly one stage; there
      are never more pending connections than configured; an id the disconnect hook
      was told about is gone for good, was told about once, and with the first status
      ever queued for it. */
  lemma IdsOverRuns(w: Setup, listener: seq<Option<Arrival>>, udp: UdpSocket, ops: seq<Op>, st: State)
    requires w.Complete() && Run(w, Start(w, listener, udp), ops, st)
    ensures |st.newCons| <= w.config.maxConHandle
    ensures st.history.issued < CID_COUNT ==>
              && (forall c: CId :: 1 <= c <= st.currentCid <==> Stage(st, c) > 0)
              && (forall i, j :: 0 <= i < j < |st.newCons| ==> st.newCons[i].cid != st.newCons[j].cid)
              && (forall c: CId :: IsPending(st, c) ==> Stage(st, c) == 1)
              && (forall c :: c in st.tcp ==> Stage(st, c) == 2 && st.Alive(c))
    ensures st.history.issued < CID_COUNT ==>
              && (forall k :: 0 <= k < |st.history.told| ==>
                    Stage(st, st.history.told[k].0) == 3 && First(st.history.queued, st.history.told[k].0, st.history.told[k].1))
              && (forall i, j :: 0 <= i < j < |st.history.told| ==> st.history.told[i].0 != st.history.told[j].0)
  {
    StartInv(w, listener, udp);
    RunKeeps(w, Start(w, listener, udp), ops, st);
  }

  /** After 2^32 connections the ids start over: the first id issued then is 0, which
      was never one, and the next one is 1 again. */
  lemma {:induction false} IdsWrap(st: State, a: Arrival, now: nat)
    requires st.currentCid == CID_COUNT - 1
    ensures Issue(st, a, now).currentCid == 0
    ensures Issue(Issue(st, a, now), a, now).currentCid == 1
  {
  }
}
