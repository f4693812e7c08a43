/** Who gets registered: over any run, only connections whose first frame was a
    connection message the hook accepted. */
module Admission {
  import opened Prelude
  import opened Header
  import opened Net
  import opened MessageTable
  import opened Tcp
  import opened Udp
  import opened Inbound
  import opened ServerModel
  import opened Lifecycle
  import opened Runs
  import opened Retiring
  import opened Settling
  import Framing
  import Receiving

  /** The peer's first frame is a connection message that reads as `m`. */
  ghost predicate Introduced(w: Setup, sent: seq<byte>, m: Msg)
    requires w.Sound()
  {
    exists payload ::
      && |payload| < U16 && Encode(Frame(CONNECTION_TYPE_MID, payload)) <= sent
      && w.serde.deser(w.parts.deser[CONNECTION_TYPE_MID].tid, payload) == Some(m)
  }

  /** The hook was asked about `c` and its first message, and accepted. */
  ghost predicate Vouched(w: Setup, asked: seq<ConCall>, c: CId, sent: seq<byte>)
    requires w.Sound()
  {
    exists k :: 0 <= k < |asked| && asked[k].cid == c && asked[k].accept && Introduced(w, sent, asked[k].msg)
  }

  /** At the coming `recv`, a visible header comes with its payload, unless it announces
      more than fits the buffer of `size` bytes. */
  predicate HeaderMeansFrame(size: nat, s: Socket) {
    var s1 := Arrive(s);
    Avail(s1) >= TCP_HEADER_LEN ==>
      var total := TCP_HEADER_LEN + TcpHeaderFromBytes(Upcoming(s1)[..TCP_HEADER_LEN]).len;
      total <= size ==> Readable(Arrive(s1)) >= total
  }

  // -------------------------------------------------------------- one connection

  /** An untouched stream stays untouched while it has to wait, and what it is
      accepted for is its first frame. */
  lemma PollConHears(w: Setup, c: TypeId, s: Socket, since: nat, now: nat)
    requires w.Sound()
    ensures var (o, t) := PollCon(w, c, s, since, now);
            && (o.Returned? && o.value.Ok? && s.pos == 0 ==> Introduced(w, s.feed.sent, o.value.value))
            && (HeaderMeansFrame(w.TcpSize(), s) && o == Returned(Err(WouldBlock)) ==> t.pos == s.pos)
  {
    hide MsgTableParts.Shaped, Encode, RecvOn, HeaderMeansFrame;
    if HeaderMeansFrame(w.TcpSize(), s) {
      WaitingMovesNothing(w.TcpSize(), s);
    }
    if RecvOn(w.TcpSize(), s).0.Ok? && s.pos == 0 {
      FirstFrame(w.TcpSize(), s);
      assert RecvOn(w.TcpSize(), s).0.value == Frame(RecvOn(w.TcpSize(), s).0.value.mid, RecvOn(w.TcpSize(), s).0.value.payload);
    }
  }

  lemma WaitingMovesNothing(size: nat, s: Socket)
    requires HeaderMeansFrame(size, s)
    ensures RecvOn(size, s).0 == Err(WouldBlock) ==> RecvOn(size, s).1.pos == s.pos
  {
    hide TcpHeaderFromBytes, Upcoming;
  }

  lemma {:induction false} FirstFrame(size: nat, s: Socket)
    requires s.pos == 0 && RecvOn(size, s).0.Ok?
    ensures |RecvOn(size, s).0.value.payload| < U16
    ensures Encode(RecvOn(size, s).0.value) <= s.feed.sent
  {
    var s1 := Arrive(s);
    var s2 := Arrive(s1);
    var sent := s.feed.sent;
    assert Upcoming(s1) == sent == Upcoming(s2);
    var h := TcpHeaderFromBytes(sent[..TCP_HEADER_LEN]);
    var total := h.len + TCP_HEADER_LEN;
    TcpHeaderOnto(sent[..TCP_HEADER_LEN]);
    assert sent[..total] == sent[..TCP_HEADER_LEN] + sent[..total][TCP_HEADER_LEN..];
    hide TcpHeaderFromBytes, TcpHeader.ToBytes;
  }

  // ------------------------------------------------------------------- one pass

  ghost predicate Heard(w: Setup, calls: seq<ConCall>, p: Pending)
    requires w.Sound()
  {
    p.sock.pos == 0 ==> Vouched(w, calls, p.cid, p.sock.feed.sent)
  }

  ghost predicate Listened(w: Setup, ps: seq<Pending>, p: Polled)
    requires w.Sound()
  {
    && |p.cons| == |ps| == |p.verdicts|
    && (forall i :: 0 <= i < |ps| && p.verdicts[i].Accepted? ==> Heard(w, p.calls, ps[i]))
    && (forall i :: 0 <= i < |ps| && p.verdicts[i].Waiting? && HeaderMeansFrame(w.TcpSize(), ps[i].sock) ==> p.cons[i].sock.pos == ps[i].sock.pos)
  }

  /** Heard connections stay heard when more calls follow. */
  lemma StillHeard(w: Setup, calls: seq<ConCall>, more: seq<ConCall>, p: Pending)
    requires w.Sound() && calls <= more && Heard(w, calls, p)
    ensures Heard(w, more, p)
  {
    if p.sock.pos == 0 {
      StillVouched(w, calls, more, p.cid, p.sock.feed.sent, p.sock.feed.sent);
    }
  }

  lemma StillVouched(w: Setup, asked: seq<ConCall>, more: seq<ConCall>, c: CId, sent: seq<byte>, longer: seq<byte>)
    requires w.Sound() && asked <= more && sent <= longer && Vouched(w, asked, c, sent)
    ensures Vouched(w, more, c, longer)
  {
    var k :| 0 <= k < |asked| && asked[k].cid == c && asked[k].accept && Introduced(w, sent, asked[k].msg);
    assert more[k] == asked[k];
    var payload :|
      && |payload| < U16 && Encode(Frame(CONNECTION_TYPE_MID, payload)) <= sent
      && w.serde.deser(w.parts.deser[CONNECTION_TYPE_MID].tid, payload) == Some(asked[k].msg);
    assert Encode(Frame(CONNECTION_TYPE_MID, payload)) <= longer;
  }

  lemma {:induction false} ListenedFirst(w: Setup, ps: seq<Pending>, q: Pending, v: Verdict, rest: Polled)
    requires w.Sound() && ps != [] && Listened(w, ps[1..], rest)
    requires v.Accepted? ==> Heard(w, rest.calls, ps[0])
    requires v.Waiting? && HeaderMeansFrame(w.TcpSize(), ps[0].sock) ==> q.sock.pos == ps[0].sock.pos
    ensures Listened(w, ps, Polled([q] + rest.cons, [v] + rest.verdicts, rest.calls))
  {
    hide Heard, HeaderMeansFrame, Setup.Sound;
    assert forall i :: 0 < i < |ps| ==> ps[i] == ps[1..][i - 1];
  }

  lemma ListenedNothing(w: Setup, ps: seq<Pending>, calls: seq<ConCall>)
    requires w.Sound()
    ensures Listened(w, ps, Polled(ps, Waitings(|ps|), calls))
  {
    hide Heard, HeaderMeansFrame, Setup.Sound;
  }

  lemma {:induction false} PollListens(w: Setup, hook: Hook, c: TypeId, now: nat, one: bool, ps: seq<Pending>, calls: seq<ConCall>)
    requires w.Sound()
    ensures var o := Poll(w, hook, c, now, one, ps, calls);
            o.Returned? ==> Listened(w, ps, o.value) && calls <= o.value.calls
    decreases |ps|
  {
    hide PollCon, Listened, Heard, Introduced, HeaderMeansFrame, Setup.Sound;
    if ps == [] {
      ListenedNothing(w, ps, calls);
      assert Waitings(0) == [];
    } else {
      var (o, s) := PollCon(w, c, ps[0].sock, ps[0].since, now);
      var q := ps[0].(sock := s);
      PollConHears(w, c, ps[0].sock, ps[0].since, now);
      if o.Returned? {
        var calls1, v := calls, if o.value.Err? && o.value.kind == WouldBlock then Waiting else Dead;
        if o.value.Ok? {
          var (accept, resp) := hook(calls, ps[0].cid, o.value.value);
          calls1 := calls + [ConCall(ps[0].cid, o.value.value, accept, resp)];
          v := if accept then Accepted(resp) else Rejected(resp);
          if accept {
            HeardNow(w, calls, ps[0], o.value.value, resp);
          }
        }
        ListenedNothing(w, ps[1..], calls1);
        PollListens(w, hook, c, now, one, ps[1..], calls1);
        var rest := if one && o.value.Ok? then Returned(Polled(ps[1..], Waitings(|ps| - 1), calls1))
                    else Poll(w, hook, c, now, one, ps[1..], calls1);
        if rest.Returned? {
          if v.Accepted? {
            StillHeard(w, calls1, rest.value.calls, ps[0]);
          }
          ListenedFirst(w, ps, q, v, rest.value);
        }
      }
    }
  }

  lemma {:induction false} HeardNow(w: Setup, calls: seq<ConCall>, p: Pending, m: Msg, resp: Msg)
    requires w.Sound() && (p.sock.pos == 0 ==> Introduced(w, p.sock.feed.sent, m))
    ensures Heard(w, calls + [ConCall(p.cid, m, true, resp)], p)
  {
    var all := calls + [ConCall(p.cid, m, true, resp)];
    assert all[|calls|] == ConCall(p.cid, m, true, resp);
    hide Introduced;
  }

  // --------------------------------------------------------- where streams come from

  /** The stream of `c` in `st1` is one that was there in `st`, registered or pending. */
  ghost predicate Origin(st: State, st1: State, c: CId) {
    c in st1.tcp ==>
      || (c in st.tcp && st1.tcp[c].feed == st.tcp[c].feed)
      || (exists i :: 0 <= i < |st.newCons| && st.newCons[i].cid == c && st1.tcp[c].feed == st.newCons[i].sock.feed)
  }

  /** What was dropped before stays, unless its id is pending again. */
  ghost predicate Rests(st: State, st1: State, c: CId) {
    c in st.history.dropped && !IsPending(st, c) ==> c in st1.history.dropped && st1.history.dropped[c] == st.history.dropped[c]
  }

  lemma SettleOrigin(w: Setup, st: State, p: Pending, v: Verdict, c: CId)
    requires w.Sound()
    ensures var o := Settle(w, st, p, v);
            o.Returned? ==>
              && (c in o.value.tcp ==> (c in st.tcp && o.value.tcp[c].feed == st.tcp[c].feed) || (c == p.cid && o.value.tcp[c].feed == p.sock.feed))
              && (c in st.history.dropped && c != p.cid ==> c in o.value.history.dropped && o.value.history.dropped[c] == st.history.dropped[c])
  {
    if v.Accepted? {
      Runs.SendToSame(w, AddTcpCon(st, p.cid, p.sock), p.cid, v.resp);
      SendFeeds(w, AddTcpCon(st, p.cid, p.sock), p.cid, v.resp, c);
      hide SendTo;
    }
  }

  lemma SendFeeds(w: Setup, st: State, cid: CId, m: Msg, c: CId)
    requires w.Sound()
    ensures c in SendTo(w, st, cid, m).1.tcp ==> c in st.tcp && SendTo(w, st, cid, m).1.tcp[c].feed == st.tcp[c].feed
  {
  }

  lemma {:induction false} OriginStep(st: State, i: nat, st1: State, st2: State, c: CId)
    requires i < |st.newCons| && st1.newCons == RemoveAt(st.newCons, i)
    requires c in st1.tcp ==> (c in st.tcp && st1.tcp[c].feed == st.tcp[c].feed) || (c == st.newCons[i].cid && st1.tcp[c].feed == st.newCons[i].sock.feed)
    requires c in st.history.dropped && c != st.newCons[i].cid ==> c in st1.history.dropped && st1.history.dropped[c] == st.history.dropped[c]
    requires Origin(st1, st2, c) && Rests(st1, st2, c)
    ensures Origin(st, st2, c) && Rests(st, st2, c)
  {
    if c in st2.tcp && !(c in st1.tcp && st2.tcp[c].feed == st1.tcp[c].feed) {
      var k :| 0 <= k < |st1.newCons| && st1.newCons[k].cid == c && st2.tcp[c].feed == st1.newCons[k].sock.feed;
      assert st.newCons[if k < i then k else k + 1] == st1.newCons[k];
    }
    if IsPending(st1, c) {
      var k :| 0 <= k < |st1.newCons| && st1.newCons[k].cid == c;
      assert st.newCons[if k < i then k else k + 1] == st1.newCons[k];
    }
  }

  lemma {:induction false} CarryOrigin(w: Setup, st: State, plan: seq<Job>, c: CId)
    requires w.Sound()
    ensures Carry(w, st, plan).Returned? ==> Origin(st, Carry(w, st, plan).value, c) && Rests(st, Carry(w, st, plan).value, c)
    decreases |plan|
  {
    hide Origin, Rests, Settle, Setup.Sound;
    if plan == [] {
      assert Origin(st, st, c) && Rests(st, st, c) by {
        OriginSelf(st, c);
      }
    } else if plan[0].idx < |st.newCons| {
      var i, v := plan[0].idx, plan[0].verdict;
      var st0 := st.(newCons := RemoveAt(st.newCons, i));
      var o := Settle(w, st0, st.newCons[i], v);
      if o.Returned? {
        SettleOrigin(w, st0, st.newCons[i], v, c);
        SettleLeaves(w, st0, st.newCons[i], v);
        CarryOrigin(w, o.value, plan[1..], c);
        if Carry(w, o.value, plan[1..]).Returned? {
          OriginStep(st, i, o.value, Carry(w, o.value, plan[1..]).value, c);
        }
      }
    }
  }

  lemma SettleLeaves(w: Setup, st: State, p: Pending, v: Verdict)
    requires w.Sound()
    ensures Settle(w, st, p, v).Returned? ==> Settle(w, st, p, v).value.newCons == st.newCons
  {
  }

  lemma OriginSelf(st: State, c: CId)
    ensures Origin(st, st, c) && Rests(st, st, c)
  {
  }

  // ------------------------------------------------------------- whole runs

  ghost predicate Admitted(w: Setup, st: State)
    requires w.Sound()
  {
    && (forall i :: 0 <= i < |st.newCons| ==> st.newCons[i].sock.pos == 0)
    && (forall c :: c in st.tcp ==> Vouched(w, st.history.asked, c, st.tcp[c].feed.sent))
    && (forall c :: c in st.history.dropped && Told(st, c) ==> Vouched(w, st.history.asked, c, st.history.dropped[c].feed.sent))
  }

  /** What a pass over the pending connections needs: visible headers come with their
      payloads, and the verdicts fall. */
  ghost predicate Clean(w: Setup, st: State, op: Op)
    requires w.Sound()
  {
    op.New? ==>
      var ps := StartIncoming(w, st, op.now).newCons;
      && (forall i :: 0 <= i < |ps| ==> HeaderMeansFrame(w.TcpSize(), ps[i].sock))
      && var p := Poll(w, op.hook, op.c, op.now, op.one, ps, []);
         p.Returned? ==> Falling(p.value.verdicts)
  }

  ghost predicate CleanRun(w: Setup, st: State, ops: seq<Op>)
    requires w.Sound()
    decreases |ops|
  {
    ops == [] ||
    (Clean(w, st, ops[0]) &&
     (Fit(w, st) && Legal(st, ops[0]) && Step(w, st, ops[0]).Returned? ==> CleanRun(w, Step(w, st, ops[0]).value, ops[1..])))
  }

  /** Moves that register nobody. */
  ghost predicate Onward(st: State, st1: State) {
    && (forall i :: 0 <= i < |st1.newCons| ==> st1.newCons[i].sock.pos == 0)
    && st.history.asked <= st1.history.asked
    && (forall c :: c in st1.tcp ==> c in st.tcp && st.tcp[c].feed.sent <= st1.tcp[c].feed.sent)
    && (forall c :: c in st1.history.dropped && Told(st1, c) ==>
          || (c in st.history.dropped && Told(st, c) && st1.history.dropped[c] == st.history.dropped[c])
          || (c in st.tcp && st1.history.dropped[c] == st.tcp[c]))
  }

  lemma OnwardAdmitted(w: Setup, st: State, st1: State)
    requires w.Sound() && Admitted(w, st) && Onward(st, st1)
    ensures Admitted(w, st1)
  {
    hide Vouched, Setup.Sound, Told;
    var asked, more := st.history.asked, st1.history.asked;
    forall c | c in st1.tcp
      ensures Vouched(w, more, c, st1.tcp[c].feed.sent)
    {
      StillVouched(w, asked, more, c, st.tcp[c].feed.sent, st1.tcp[c].feed.sent);
    }
    forall c | c in st1.history.dropped && Told(st1, c)
      ensures Vouched(w, more, c, st1.history.dropped[c].feed.sent)
    {
      var sent := st1.history.dropped[c].feed.sent;
      StillVouched(w, asked, more, c, sent, sent);
    }
  }

  /** Moves that keep streams in their places. */
  ghost predicate InPlace(st: State, st1: State) {
    && (forall i :: 0 <= i < |st1.newCons| ==> st1.newCons[i].sock.pos == 0)
    && st.history.asked <= st1.history.asked && st1.history.told == st.history.told && st1.history.dropped == st.history.dropped
    && (forall c :: c in st1.tcp ==> c in st.tcp && st.tcp[c].feed.sent <= st1.tcp[c].feed.sent)
  }

  lemma InPlaceOnward(st: State, st1: State)
    requires InPlace(st, st1)
    ensures Onward(st, st1)
  {
    assert forall c: CId :: Told(st1, c) <==> Told(st, c);
  }

  lemma {:induction false} TellOnward(st: State)
    requires Paired(st) && st.disconnected != [] && st.Alive(st.disconnected[0].0)
    requires forall i :: 0 <= i < |st.newCons| ==> st.newCons[i].sock.pos == 0
    ensures Onward(st, TellFirst(st))
  {
    var st1 := TellFirst(st);
    var (cid, status) := st.disconnected[0];
    var told := st.history.told;
    forall c: CId
      ensures Told(st1, c) ==> Told(st, c) || c == cid
    {
      if Told(st1, c) {
        var k :| 0 <= k < |st1.history.told| && st1.history.told[k].0 == c;
        if k < |told| {
          assert told[k].0 == c;
        }
      }
    }
  }

  lemma {:induction false} TakeInPlace(w: Setup, st: State, cid: CId)
    requires w.Sound() && |st.msgBuff| == w.parts.MidCount() && cid in st.tcp
    requires forall i :: 0 <= i < |st.newCons| ==> st.newCons[i].sock.pos == 0
    ensures RecvCon(w, st, cid).Returned? ==> InPlace(st, RecvCon(w, st, cid).value.0)
  {
    Receiving.StreamsAfter(w, st, cid);
    RecvConKeeps(w, st, cid);
    DrainReads(w, cid, st.tcp[cid]);
    hide RecvCon, Drain, Setup.Sound;
  }

  lemma {:induction false} UdpInPlace(w: Setup, st: State)
    requires w.Sound() && |st.msgBuff| == w.parts.MidCount() && RecvUdps(w, st).Returned?
    requires forall i :: 0 <= i < |st.newCons| ==> st.newCons[i].sock.pos == 0
    ensures InPlace(st, RecvUdps(w, st).value.0)
  {
  }

  lemma {:induction false} PostInPlace(w: Setup, st: State, cid: CId, m: Msg)
    requires w.Sound()
    requires forall i :: 0 <= i < |st.newCons| ==> st.newCons[i].sock.pos == 0
    ensures InPlace(st, SendTo(w, st, cid, m).1)
  {
    Runs.SendToSame(w, st, cid, m);
    forall c
      ensures c in SendTo(w, st, cid, m).1.tcp ==> c in st.tcp && SendTo(w, st, cid, m).1.tcp[c].feed == st.tcp[c].feed
    {
      SendFeeds(w, st, cid, m, c);
    }
    hide SendTo, Setup.Sound;
  }

  lemma {:induction false} WorldInPlace(st: State, after: State)
    requires WorldMoves(st, after)
    requires forall i :: 0 <= i < |st.newCons| ==> st.newCons[i].sock.pos == 0
    ensures InPlace(st, after)
  {
  }

  lemma {:induction false} EnrollInPlace(w: Setup, st: State, mv: Move)
    requires w.Sound() && mv.Enroll? && Do(w, st, mv).Returned?
    requires forall i :: 0 <= i < |st.newCons| ==> st.newCons[i].sock.pos == 0
    ensures InPlace(st, Do(w, st, mv).value)
  {
  }

  lemma {:induction false} MoveInPlace(w: Setup, st: State, mv: Move)
    requires w.Sound() && Do(w, st, mv).Returned? && !mv.Ask? && !mv.Pass? && !mv.TellOne?
    requires forall i :: 0 <= i < |st.newCons| ==> st.newCons[i].sock.pos == 0
    ensures InPlace(st, Do(w, st, mv).value)
  {
    hide SendTo, RecvCon, RecvUdps, Setup.Sound, WorldMoves, InPlace;
    if mv.Take? {
      TakeInPlace(w, st, mv.cid);
    } else if mv.TakeUdp? {
      UdpInPlace(w, st);
    } else if mv.Post? {
      PostInPlace(w, st, mv.cid, mv.m);
    } else if mv.Wait? {
      WorldInPlace(st, mv.after);
    } else if mv.Enroll? {
      EnrollInPlace(w, st, mv);
    } else {
      QuietInPlace(st, Do(w, st, mv).value);
    }
  }

  lemma {:induction false} QuietInPlace(st: State, st1: State)
    requires forall i :: 0 <= i < |st.newCons| ==> st.newCons[i].sock.pos == 0
    requires st1.newCons == st.newCons && st1.history == st.history.(queued := st1.history.queued)
    requires forall c :: c in st1.tcp ==> c in st.tcp && st1.tcp[c].feed == st.tcp[c].feed
    ensures InPlace(st, st1)
  {
  }

  lemma MoveAdmitted(w: Setup, st: State, mv: Move)
    requires w.Sound() && Admitted(w, st) && Do(w, st, mv).Returned? && !mv.Ask? && !mv.Pass?
    ensures Admitted(w, Do(w, st, mv).value)
  {
    AdmittedUntouched(w, st);
    hide *;
    MoveOnward(w, st, mv);
    OnwardAdmitted(w, st, Do(w, st, mv).value);
  }

  lemma AdmittedUntouched(w: Setup, st: State)
    requires w.Sound() && Admitted(w, st)
    ensures forall i :: 0 <= i < |st.newCons| ==> st.newCons[i].sock.pos == 0
  {
    hide Vouched;
  }

  lemma {:induction false} MoveOnward(w: Setup, st: State, mv: Move)
    requires w.Sound() && Do(w, st, mv).Returned? && !mv.Ask? && !mv.Pass?
    requires forall i :: 0 <= i < |st.newCons| ==> st.newCons[i].sock.pos == 0
    ensures Onward(st, Do(w, st, mv).value)
  {
    hide Onward, TellFirst, InPlace, SendTo, RecvCon, RecvUdps, Setup.Sound, WorldMoves, Issue;
    if mv.TellOne? {
      TellOnward(st);
    } else {
      MoveInPlace(w, st, mv);
      InPlaceOnward(st, Do(w, st, mv).value);
    }
  }

  lemma {:induction false} MovesAdmitted(w: Setup, st: State, mvs: seq<Move>)
    requires w.Sound() && Admitted(w, st) && DoAll(w, st, mvs).Returned?
    requires forall mv :: mv in mvs ==> !mv.Ask? && !mv.Pass?
    ensures Admitted(w, DoAll(w, st, mvs).value)
    decreases |mvs|
  {
    hide Do, Admitted;
    if mvs != [] {
      assert mvs[0] in mvs;
      MoveAdmitted(w, st, mvs[0]);
      MovesAdmitted(w, Do(w, st, mvs[0]).value, mvs[1..]);
    }
  }

  lemma {:induction false} StartIncomingAdmitted(w: Setup, st: State, now: nat)
    requires w.Sound() && Admitted(w, st)
    ensures Admitted(w, StartIncoming(w, st, now))
    decreases |st.listener|
  {
    hide Admitted, Setup.Sound;
    if |st.newCons| < w.config.maxConHandle && st.listener != [] {
      if st.listener[0].None? {
        MoveAdmitted(w, st, Listen);
      } else {
        MoveAdmitted(w, st, Enroll(now));
        StartIncomingAdmitted(w, Issue(st.(listener := st.listener[1..]), st.listener[0].value, now), now);
      }
    }
  }

  lemma {:induction false} OthersFrom<T>(s: seq<T>, gone: iset<nat>, x: T)
    requires x in Others(s, gone)
    ensures exists i :: 0 <= i < |s| && s[i] == x && i !in gone
    decreases |s|
  {
    var n := |s| - 1;
    if x in Others(s[..n], gone) {
      OthersFrom(s[..n], gone, x);
      var i :| 0 <= i < n && s[..n][i] == x && i !in gone;
      assert s[i] == x;
    } else {
      assert s[n] == x;
    }
  }

  /** The state between the pass over the pending connections and the replay. */
  ghost predicate Listening(w: Setup, st: State, vs: seq<Verdict>)
    requires w.Sound()
  {
    && |vs| == |st.newCons| && Falling(vs) && AllFresh(st, st.newCons)
    && (forall i :: 0 <= i < |vs| && vs[i].Accepted? ==> Vouched(w, st.history.asked, st.newCons[i].cid, st.newCons[i].sock.feed.sent))
    && (forall i :: 0 <= i < |vs| && vs[i].Waiting? ==> st.newCons[i].sock.pos == 0)
    && (forall c :: c in st.tcp ==> Vouched(w, st.history.asked, c, st.tcp[c].feed.sent))
    && (forall c :: c in st.history.dropped && Told(st, c) ==> Vouched(w, st.history.asked, c, st.history.dropped[c].feed.sent))
    && (forall c :: IsPending(st, c) ==> !Told(st, c))
    && (forall c :: Told(st, c) ==> c in st.history.dropped)
  }

  lemma AllAnswerEach(w: Setup, vs: seq<Verdict>)
    requires w.Sound() && AllAnswer(w, Plan(vs))
    ensures forall i :: 0 <= i < |vs| ==> Answers(w, vs[i])
  {
    PlanIs(vs);
    forall i | 0 <= i < |vs|
      ensures Answers(w, vs[i])
    {
      if vs[i] != Waiting {
        assert Job(i, vs[i]) in Plan(vs);
      }
    }
  }

  lemma CarrySettles(w: Setup, st: State, vs: seq<Verdict>)
    requires w.Sound() && Listening(w, st, vs) && Carry(w, st, Plan(vs)).Returned?
    ensures var st1 := Carry(w, st, Plan(vs)).value;
            && OnlySettled(st, st1) && st1.newCons == Others(st.newCons, Decided(vs))
            && forall i :: 0 <= i < |vs| ==> Fate(st1, st.newCons[i], vs[i])
  {
    hide Vouched, Carry, Plan, Falling, Setup.Sound, Others, AllFresh, Told, Answers, Fate;
    PlanActs(vs);
    CarryServes(w, st, Plan(vs));
    AllAnswerEach(w, vs);
    FallingSettles(w, st, vs);
  }

  lemma {:induction false} WaitingUntouched(st: State, vs: seq<Verdict>, left: seq<Pending>)
    requires |vs| == |st.newCons| && left == Others(st.newCons, Decided(vs))
    requires forall i :: 0 <= i < |vs| && vs[i].Waiting? ==> st.newCons[i].sock.pos == 0
    ensures forall i :: 0 <= i < |left| ==> left[i].sock.pos == 0
  {
    hide Others;
    forall i | 0 <= i < |left|
      ensures left[i].sock.pos == 0
    {
      assert left[i] in left;
      OthersFrom(st.newCons, Decided(vs), left[i]);
    }
  }

  lemma {:induction false} AcceptedVouched(w: Setup, st: State, vs: seq<Verdict>, st1: State, c: CId)
    requires w.Sound() && Listening(w, st, vs) && Origin(st, st1, c) && c in st1.tcp
    requires forall i :: 0 <= i < |vs| ==> Fate(st1, st.newCons[i], vs[i])
    ensures Vouched(w, st.history.asked, c, st1.tcp[c].feed.sent)
  {
    hide Vouched, Falling, Setup.Sound, AllFresh, Told, IsPending;
    if !(c in st.tcp && st1.tcp[c].feed == st.tcp[c].feed) {
      var i :| 0 <= i < |st.newCons| && st.newCons[i].cid == c && st1.tcp[c].feed == st.newCons[i].sock.feed;
      assert Fate(st1, st.newCons[i], vs[i]);
    }
  }

  lemma {:induction false} ToldVouched(w: Setup, st: State, vs: seq<Verdict>, st1: State, c: CId)
    requires w.Sound() && Listening(w, st, vs) && Rests(st, st1, c) && c in st1.history.dropped && Told(st1, c)
    requires st1.history.told == st.history.told
    ensures Vouched(w, st.history.asked, c, st1.history.dropped[c].feed.sent)
  {
    ToldSame(st, st1, c);
    hide Vouched, Falling, Setup.Sound, AllFresh, Told, IsPending;
  }

  lemma CarryAdmits(w: Setup, st: State, vs: seq<Verdict>)
    requires w.Sound() && Listening(w, st, vs) && Carry(w, st, Plan(vs)).Returned?
    ensures Admitted(w, Carry(w, st, Plan(vs)).value)
  {
    var st1 := Carry(w, st, Plan(vs)).value;
    CarrySettles(w, st, vs);
    WaitingUntouched(st, vs, st1.newCons);
    hide Vouched, Carry, Plan, Listening, Setup.Sound, Told, Origin, Rests, Fate;
    forall c: CId
      ensures c in st1.tcp ==> Vouched(w, st.history.asked, c, st1.tcp[c].feed.sent)
      ensures c in st1.history.dropped && Told(st1, c) ==> Vouched(w, st.history.asked, c, st1.history.dropped[c].feed.sent)
    {
      CarryOrigin(w, st, Plan(vs), c);
      if c in st1.tcp {
        AcceptedVouched(w, st, vs, st1, c);
      }
      if c in st1.history.dropped && Told(st1, c) {
        ToldVouched(w, st, vs, st1, c);
      }
    }
  }

  lemma {:induction false} PendingNeverTold(w: Setup, st: State)
    requires Inv(w, st) && st.history.issued < CID_COUNT
    ensures AllFresh(st, st.newCons)
    ensures forall c :: IsPending(st, c) ==> !Told(st, c)
    ensures forall c :: Told(st, c) ==> c in st.history.dropped
  {
    forall i | 0 <= i < |st.newCons|
      ensures st.newCons[i].cid !in st.tcp && st.newCons[i].cid !in st.history.dropped
    {
      PendingUnknown(w, st, i);
    }
  }

  lemma {:induction false} AskListens(w: Setup, st: State, op: Op)
    requires w.Sound() && op.New? && Admitted(w, st) && Inv(w, st) && st.history.issued < CID_COUNT
    requires forall i :: 0 <= i < |st.newCons| ==> HeaderMeansFrame(w.TcpSize(), st.newCons[i].sock)
    requires Poll(w, op.hook, op.c, op.now, op.one, st.newCons, []).Returned?
    requires Falling(Poll(w, op.hook, op.c, op.now, op.one, st.newCons, []).value.verdicts)
    ensures var p := Poll(w, op.hook, op.c, op.now, op.one, st.newCons, []).value; Listening(w, AfterPoll(st, p), p.verdicts)
  {
    hide *;
    var p := Poll(w, op.hook, op.c, op.now, op.one, st.newCons, []).value;
    AskKeeps(w, st, op.hook, op.c, op.now, op.one);
    IssuedSame(st, p);
    PendingNeverTold(w, AfterPoll(st, p));
    PollReads(w, op.hook, op.c, op.now, op.one, st.newCons, []);
    PollListens(w, op.hook, op.c, op.now, op.one, st.newCons, []);
    Relistens(w, st, p);
  }

  lemma IssuedSame(st: State, p: Polled)
    ensures AfterPoll(st, p).history.issued == st.history.issued
  {
  }

  lemma {:induction false} Relistens(w: Setup, st: State, p: Polled)
    requires w.Sound() && Admitted(w, st) && Listened(w, st.newCons, p) && Polls(st.newCons, p.cons) && Falling(p.verdicts)
    requires forall i :: 0 <= i < |st.newCons| ==> HeaderMeansFrame(w.TcpSize(), st.newCons[i].sock)
    requires var st1 := AfterPoll(st, p);
             && AllFresh(st1, st1.newCons)
             && (forall c :: IsPending(st1, c) ==> !Told(st1, c)) && (forall c :: Told(st1, c) ==> c in st1.history.dropped)
    ensures Listening(w, AfterPoll(st, p), p.verdicts)
  {
    AdmittedUntouched(w, st);
    AskedMore(w, st, p);
    hide Admitted, Vouched, Heard, Falling, Setup.Sound, HeaderMeansFrame, Told, IsPending, AllFresh;
    var st1 := AfterPoll(st, p);
    forall c: CId
      ensures Told(st1, c) <==> Told(st, c)
    {
      ToldSame(st, st1, c);
    }
  }

  lemma {:induction false} ToldSame(st: State, st1: State, c: CId)
    requires st1.history.told == st.history.told
    ensures Told(st1, c) <==> Told(st, c)
  {
  }

  /** The calls of the pass are kept behind the earlier ones. */
  lemma {:induction false} AskedMore(w: Setup, st: State, p: Polled)
    requires w.Sound() && Admitted(w, st) && Listened(w, st.newCons, p)
    ensures var asked := st.history.asked + p.calls;
            && (forall i :: 0 <= i < |st.newCons| && p.verdicts[i].Accepted? ==>
                  Vouched(w, asked, st.newCons[i].cid, st.newCons[i].sock.feed.sent))
            && (forall c :: c in st.tcp ==> Vouched(w, asked, c, st.tcp[c].feed.sent))
            && (forall c :: c in st.history.dropped && Told(st, c) ==> Vouched(w, asked, c, st.history.dropped[c].feed.sent))
  {
    hide Vouched, Setup.Sound, Told, HeaderMeansFrame;
    var before, asked := st.history.asked, st.history.asked + p.calls;
    forall i | 0 <= i < |st.newCons| && p.verdicts[i].Accepted?
      ensures Vouched(w, asked, st.newCons[i].cid, st.newCons[i].sock.feed.sent)
    {
      VouchedLater(w, before, p.calls, st.newCons[i].cid, st.newCons[i].sock.feed.sent);
    }
    forall c | c in st.tcp
      ensures Vouched(w, asked, c, st.tcp[c].feed.sent)
    {
      StillVouched(w, before, asked, c, st.tcp[c].feed.sent, st.tcp[c].feed.sent);
    }
    forall c | c in st.history.dropped && Told(st, c)
      ensures Vouched(w, asked, c, st.history.dropped[c].feed.sent)
    {
      var sent := st.history.dropped[c].feed.sent;
      StillVouched(w, before, asked, c, sent, sent);
    }
  }

  lemma VouchedLater(w: Setup, before: seq<ConCall>, calls: seq<ConCall>, c: CId, sent: seq<byte>)
    requires w.Sound() && Vouched(w, calls, c, sent)
    ensures Vouched(w, before + calls, c, sent)
  {
    var k :| 0 <= k < |calls| && calls[k].cid == c && calls[k].accept && Introduced(w, sent, calls[k].msg);
    assert (before + calls)[|before| + k] == calls[k];
    hide Introduced;
  }

  lemma {:induction false} NewAdmitted(w: Setup, st: State, op: Op)
    requires w.Sound() && op.New? && Admitted(w, st) && Inv(w, st) && Clean(w, st, op)
    requires Step(w, st, op).Returned? && Step(w, st, op).value.history.issued < CID_COUNT
    ensures Admitted(w, Step(w, st, op).value)
  {
    hide Inv, Admitted, Listening, Carry, Poll, Plan, StartIncoming, Setup.Sound, HeaderMeansFrame, Falling, Later;
    var st1 := StartIncoming(w, st, op.now);
    StartIncomingAdmitted(w, st, op.now);
    var mvs := StartIncomingMoves(w, st, op.now, op);
    MovesKeep(w, st, mvs);
    if st1.newCons != [] {
      var p := Poll(w, op.hook, op.c, op.now, op.one, st1.newCons, []).value;
      CarriedIssued(w, AfterPoll(st1, p), Plan(p.verdicts));
      AskListens(w, st1, op);
      CarryAdmits(w, AfterPoll(st1, p), p.verdicts);
    }
  }

  lemma {:induction false} CarriedIssued(w: Setup, st: State, plan: seq<Job>)
    requires w.Sound() && Carry(w, st, plan).Returned?
    ensures Carry(w, st, plan).value.history.issued == st.history.issued
    decreases |plan|
  {
    hide Settle, Setup.Sound;
    if plan != [] {
      var i, v := plan[0].idx, plan[0].verdict;
      var st0 := st.(newCons := RemoveAt(st.newCons, i));
      SettleIssued(w, st0, st.newCons[i], v);
      CarriedIssued(w, Settle(w, st0, st.newCons[i], v).value, plan[1..]);
    }
  }

  lemma SettleIssued(w: Setup, st: State, p: Pending, v: Verdict)
    requires w.Sound()
    ensures Settle(w, st, p, v).Returned? ==> Settle(w, st, p, v).value.history.issued == st.history.issued
  {
  }

  lemma {:induction false} StepAdmitted(w: Setup, st: State, op: Op)
    requires w.Sound() && Admitted(w, st) && Inv(w, st) && Legal(st, op) && Clean(w, st, op)
    requires Step(w, st, op).Returned? && Step(w, st, op).value.history.issued < CID_COUNT
    ensures Admitted(w, Step(w, st, op).value)
  {
    if op.New? {
      NewAdmitted(w, st, op);
    } else {
      assert Fit(w, st);
      hide Inv, Admitted, Step, DoAll, Clean, Setup.Sound;
      var mvs := StepMoves(w, st, op);
      assert forall mv :: mv in mvs ==> PartOf(op, mv);
      MovesAdmitted(w, st, mvs);
    }
  }

  lemma {:induction false} RunAdmitted(w: Setup, st: State, ops: seq<Op>, st1: State)
    requires w.Sound() && Inv(w, st) && Admitted(w, st) && Run(w, st, ops, st1) && CleanRun(w, st, ops)
    requires st1.history.issued < CID_COUNT
    ensures Admitted(w, st1)
    decreases |ops|
  {
    hide Step, Legal, Inv, Admitted, Clean, Setup.Sound;
    if ops != [] {
      StepKeeps(w, st, ops[0]);
      var st2 := Step(w, st, ops[0]).value;
      RunKeeps(w, st2, ops[1..], st1);
      StepAdmitted(w, st, ops[0]);
      RunAdmitted(w, st2, ops[1..], st1);
    }
  }

  /** Over any run whose passes are clean, every id that is registered, or was until
      the disconnect hook was told, belongs to a peer whose first frame was a
      connection message which the hook was asked about for this id and accepted. */
  lemma {:induction false} AdmittedOverRuns(w: Setup, listener: seq<Option<Arrival>>, udp: UdpSocket, ops: seq<Op>, st: State)
    requires w.Complete() && Run(w, Start(w, listener, udp), ops, st) && st.history.issued < CID_COUNT
    requires CleanRun(w, Start(w, listener, udp), ops)
    ensures forall c :: c in st.tcp ==> Vouched(w, st.history.asked, c, st.tcp[c].feed.sent)
    ensures forall c :: Told(st, c) ==> c in st.history.dropped && Vouched(w, st.history.asked, c, st.history.dropped[c].feed.sent)
  {
    var start := Start(w, listener, udp);
    StartInv(w, listener, udp);
    assert Admitted(w, start);
    RunAdmitted(w, start, ops, st);
    RunKeeps(w, start, ops, st);
    PendingNeverTold(w, st);
  }

  // --------------------------------------------------------- a pass and its count

  function Answered(vs: seq<Verdict>): nat {
    if vs == [] then 0
    else Answered(vs[..|vs| - 1]) + if vs[|vs| - 1].Accepted? || vs[|vs| - 1].Rejected? then 1 else 0
  }

  lemma {:induction false} AnsweredPicks(vs: seq<Verdict>)
    ensures Answered(vs) == |Pick(vs, KAccepted)| + |Pick(vs, KRejected)|
    decreases |vs|
  {
    if vs != [] {
      AnsweredPicks(vs[..|vs| - 1]);
    }
  }

  lemma {:induction false} AnsweredFirst(v: Verdict, rest: seq<Verdict>)
    ensures Answered([v] + rest) == Answered(rest) + if v.Accepted? || v.Rejected? then 1 else 0
    decreases |rest|
  {
    var all := [v] + rest;
    if rest == [] {
      assert all[..0] == [];
    } else {
      assert all[..|all| - 1] == [v] + rest[..|rest| - 1];
      AnsweredFirst(v, rest[..|rest| - 1]);
    }
  }

  lemma {:induction false} AnsweredWaiting(n: nat)
    ensures Answered(Waitings(n)) == 0
  {
    if n > 0 {
      assert Waitings(n)[..n - 1] == Waitings(n - 1);
      AnsweredWaiting(n - 1);
    }
  }

  /** Each call of the hook leaves one entry in the lists. */
  lemma {:induction false} PollCounts(w: Setup, hook: Hook, c: TypeId, now: nat, one: bool, ps: seq<Pending>, calls: seq<ConCall>)
    requires w.Sound()
    ensures var o := Poll(w, hook, c, now, one, ps, calls);
            o.Returned? ==> |o.value.calls| == |calls| + Answered(o.value.verdicts)
    decreases |ps|
  {
    hide PollCon, Setup.Sound, Answered;
    AnsweredWaiting(0);
    if ps == [] {
      assert Waitings(0) == [];
    } else {
      AnsweredWaiting(|ps| - 1);
      var (o, s) := PollCon(w, c, ps[0].sock, ps[0].since, now);
      if o.Returned? {
        var calls1, v := calls, if o.value.Err? && o.value.kind == WouldBlock then Waiting else Dead;
        if o.value.Ok? {
          var (accept, resp) := hook(calls, ps[0].cid, o.value.value);
          calls1 := calls + [ConCall(ps[0].cid, o.value.value, accept, resp)];
          v := if accept then Accepted(resp) else Rejected(resp);
          AnsweredFirst(v, Waitings(|ps| - 1));
        }
        PollCounts(w, hook, c, now, one, ps[1..], calls1);
        var rest := Poll(w, hook, c, now, one, ps[1..], calls1);
        if rest.Returned? {
          AnsweredFirst(v, rest.value.verdicts);
        }
      }
    }
  }

  /** A pass whose rejections are answered with the response type does right by every
      pending connection (registers the accepted ones, drops the rejected and dead
      ones, touches no waiting one) exactly when its verdicts fall; and then it returns
      how often the hook was called, and the waiting ones keep their order. */
  lemma {:induction false} PassSettles(w: Setup, st: State, hook: Hook, c: TypeId, now: nat, one: bool)
    requires w.Sound() && Inv(w, st) && StartIncoming(w, st, now).history.issued < CID_COUNT
    requires var p := Poll(w, hook, c, now, one, StartIncoming(w, st, now).newCons, []);
             p.Returned? && forall i :: 0 <= i < |p.value.verdicts| ==> Answers(w, p.value.verdicts[i])
    ensures var p := Poll(w, hook, c, now, one, StartIncoming(w, st, now).newCons, []).value;
            var o := HandleNew(w, st, hook, c, now, one);
            && ((o.Returned? && forall i :: 0 <= i < |p.cons| ==> Fate(o.value.0, p.cons[i], p.verdicts[i])) <==> Falling(p.verdicts))
            && (Falling(p.verdicts) ==> o.value.1 == |p.calls| && o.value.0.newCons == Others(p.cons, Decided(p.verdicts)))
  {
    hide StartIncoming, Poll, Carry, Plan, Falling, Inv, Others, Decided, Fate, Answers, Setup.Sound, AllFresh, Answered, Later;
    var st1 := StartIncoming(w, st, now);
    var op := Op.New(hook, c, now, one);
    var mvs := StartIncomingMoves(w, st, now, op);
    MovesKeep(w, st, mvs);
    var p := Poll(w, hook, c, now, one, st1.newCons, []).value;
    PollCounts(w, hook, c, now, one, st1.newCons, []);
    AnsweredPicks(p.verdicts);
    AskKeeps(w, st1, hook, c, now, one);
    PendingNeverTold(w, AfterPoll(st1, p));
    CarryExactly(w, AfterPoll(st1, p), p.verdicts);
    if Falling(p.verdicts) {
      FallingSettles(w, AfterPoll(st1, p), p.verdicts);
    }
    if st1.newCons == [] {
      EmptyPass(w, hook, c, now, one, st1);
    }
  }

  lemma EmptyPass(w: Setup, hook: Hook, c: TypeId, now: nat, one: bool, st: State)
    requires w.Sound()
    ensures Poll(w, hook, c, now, one, [], []) == Returned(Polled([], [], []))
    ensures Falling([]) && Carry(w, st, Plan([])) == Returned(st) && Others<Pending>([], Decided([])) == []
  {
  }

  // ------------------------------------------------------------ the pass that fails

  /** A pending connection that is not timed out and whose connection message is there. */
  ghost predicate Introduces(w: Setup, c: TypeId, now: nat, p: Pending)
    requires w.Sound()
  {
    && now <= p.since + w.config.timeout && p.sock.feed.fault.None? && Avail(Arrive(p.sock)) >= TCP_HEADER_LEN
    && exists payload, rest ::
         && Framing.Fits(w.TcpSize(), Frame(CONNECTION_TYPE_MID, payload))
         && Upcoming(p.sock) == Encode(Frame(CONNECTION_TYPE_MID, payload)) + rest
         && !Framing.Splits(p.sock, Frame(CONNECTION_TYPE_MID, payload))
         && ReadsAs(w, c, payload)
  }

  predicate ReadsAs(w: Setup, c: TypeId, payload: seq<byte>)
    requires w.Sound()
  {
    var m := w.serde.deser(w.parts.deser[CONNECTION_TYPE_MID].tid, payload);
    m.Some? && m.value.tid == c
  }

  lemma IntroducedIsHeard(w: Setup, c: TypeId, now: nat, p: Pending)
    requires w.Sound() && Introduces(w, c, now, p)
    ensures var o := PollCon(w, c, p.sock, p.since, now).0; o.Returned? && o.value.Ok?
  {
    var payload, rest :|
      && Framing.Fits(w.TcpSize(), Frame(CONNECTION_TYPE_MID, payload))
      && Upcoming(p.sock) == Encode(Frame(CONNECTION_TYPE_MID, payload)) + rest
      && !Framing.Splits(p.sock, Frame(CONNECTION_TYPE_MID, payload))
      && ReadsAs(w, c, payload);
    Framing.RecvAtFrame(w.TcpSize(), p.sock, Frame(CONNECTION_TYPE_MID, payload), rest);
    hide RecvOn, Framing.Splits, Framing.Fits, Encode, MsgTableParts.Shaped;
  }

  /** A hook that accepts everybody. */
  ghost predicate AcceptsAll(hook: Hook) {
    forall calls, cid, m :: hook(calls, cid, m).0
  }

  lemma {:induction false} PollAccepts(w: Setup, hook: Hook, c: TypeId, now: nat, ps: seq<Pending>, calls: seq<ConCall>)
    requires w.Sound() && AcceptsAll(hook) && forall i :: 0 <= i < |ps| ==> Introduces(w, c, now, ps[i])
    ensures var o := Poll(w, hook, c, now, false, ps, calls);
            o.Returned? && forall i :: 0 <= i < |ps| ==> o.value.verdicts[i].Accepted?
    decreases |ps|
  {
    hide PollCon, Introduces, AcceptsAll, Setup.Sound;
    if ps != [] {
      IntroducedIsHeard(w, c, now, ps[0]);
      var got := PollCon(w, c, ps[0].sock, ps[0].since, now).0.value;
      assert hook(calls, ps[0].cid, got.value).0 by {
        Accepting(hook, calls, ps[0].cid, got.value);
      }
      PollAccepts(w, hook, c, now, ps[1..], Weigh(hook, calls, ps[0].cid, got).1);
    }
  }

  lemma Accepting(hook: Hook, calls: seq<ConCall>, cid: CId, m: Msg)
    requires AcceptsAll(hook)
    ensures hook(calls, cid, m).0
  {
  }

  /** `handle_new_cons` with a hook that accepts everybody panics whenever two or more
      connections are pending and the connection message of each is there. */
  lemma {:induction false} AcceptingPassPanics(w: Setup, st: State, hook: Hook, c: TypeId, now: nat)
    requires w.Sound() && AcceptsAll(hook)
    requires |StartIncoming(w, st, now).newCons| >= 2
    requires forall i :: 0 <= i < |StartIncoming(w, st, now).newCons| ==> Introduces(w, c, now, StartIncoming(w, st, now).newCons[i])
    ensures HandleNew(w, st, hook, c, now, false).Panicked?
  {
    hide StartIncoming, Poll, Carry, Plan, Introduces, AcceptsAll, Setup.Sound;
    var st1 := StartIncoming(w, st, now);
    PollAccepts(w, hook, c, now, st1.newCons, []);
    var p := Poll(w, hook, c, now, false, st1.newCons, []).value;
    AcceptingAllPanics(w, AfterPoll(st1, p), p.verdicts);
  }
}
