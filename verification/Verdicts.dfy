/** What decides over a pending connection: the clock, its stream and the hook. */
module Verdicts {
  import opened Prelude
  import opened Header
  import opened Net
  import opened MessageTable
  import opened Tcp
  import opened Inbound
  import opened ServerModel
  import opened Lifecycle
  import opened Runs
  import opened Retiring
  import opened Settling
  import opened Framing
  import opened Handshake
  import Admission

  // ------------------------------------------------------------- one connection

  /** The bytes of the frame in front are a connection message. */
  predicate OpensWith(w: Setup, s: Socket, m: Msg)
    requires w.Sound()
  {
    && Whole(w.TcpSize(), s) && Front(s).mid == CONNECTION_TYPE_MID
    && w.serde.deser(w.parts.deser[CONNECTION_TYPE_MID].tid, Front(s).payload) == Some(m)
  }

  /** The connection has had its time. */
  predicate Late(w: Setup, now: nat, p: Pending) {
    now > p.since + w.config.timeout
  }

  /** In time, with its connection message there. */
  ghost predicate Speaks(w: Setup, now: nat, p: Pending)
    requires w.Sound()
  {
    !Late(w, now, p) && exists m :: OpensWith(w, p.sock, m)
  }

  ghost function Words(w: Setup, now: nat, p: Pending): (m: Msg)
    requires w.Sound() && Speaks(w, now, p)
    ensures OpensWith(w, p.sock, m)
  {
    var m :| OpensWith(w, p.sock, m);
    m
  }

  /** There is no hope for it: it is late, the socket failed, the stream ended or ends
      within its first frame, that frame is too long, or it is no connection message. */
  ghost predicate Lost(w: Setup, now: nat, p: Pending)
    requires w.Sound()
  {
    || Late(w, now, p)
    || (exists kind :: Fails(w.TcpSize(), p.sock, kind))
    || (Whole(w.TcpSize(), p.sock) && forall m :: !OpensWith(w, p.sock, m))
  }

  lemma {:induction false} PollConDecides(w: Setup, c: TypeId, now: nat, p: Pending)
    requires w.Sound()
    ensures var (o, t) := PollCon(w, c, p.sock, p.since, now);
            && !(Lost(w, now, p) && Speaks(w, now, p))
            && (Lost(w, now, p) ==> o.Returned? && o.value.Err? && o.value.kind != WouldBlock)
            && (Speaks(w, now, p) ==>
                  && o == (if Words(w, now, p).tid != c then Panicked else Returned(Ok(Words(w, now, p))))
                  && t.shut == p.sock.shut)
            && (!Lost(w, now, p) && !Speaks(w, now, p) ==> o == Returned(Err(WouldBlock)))
  {
    var size, s := w.TcpSize(), p.sock;
    RecvMeets(size, s);
    if Whole(size, s) {
      var got := w.serde.deser(w.parts.deser[CONNECTION_TYPE_MID].tid, Front(s).payload);
      hide RecvOn, Fails, Front, Announced, Arrive, MsgTableParts.Shaped;
      assert Front(s).mid == CONNECTION_TYPE_MID && got.Some? ==> OpensWith(w, s, got.value);
    }
  }

  /** Nothing decides over a connection in time that shows less than a header, without
      an error or an end. */
  lemma SilentWaits(w: Setup, now: nat, p: Pending)
    requires w.Sound() && !Late(w, now, p) && Silent(p.sock)
    ensures !Lost(w, now, p) && !Speaks(w, now, p)
  {
  }

  // ------------------------------------------------------------------ a whole loop

  ghost function Speakers(w: Setup, now: nat, ps: seq<Pending>): nat
    requires w.Sound()
  {
    if ps == [] then 0 else (if Speaks(w, now, ps[0]) then 1 else 0) + Speakers(w, now, ps[1..])
  }

  /** The verdict `v` on `p` when the hook's calls are `asked`: a connection that speaks gets
      what the hook answered to it in call number `k`, knowing the calls before; a lost
      one is dead; any other waits, and so does everybody once the loop has ended. */
  ghost predicate Judged(w: Setup, hook: Hook, now: nat, over: bool, p: Pending, v: Verdict, asked: seq<ConCall>, k: nat)
    requires w.Sound()
  {
    if over then v == Waiting
    else if Speaks(w, now, p) then
      && (v.Accepted? || v.Rejected?) && k < |asked|
      && asked[k] == ConCall(p.cid, Words(w, now, p), v.Accepted?, v.resp)
      && hook(asked[..k], p.cid, Words(w, now, p)) == (v.Accepted?, v.resp)
    else if Lost(w, now, p) then v == Dead
    else v == Waiting
  }

  /** Reading what a connection says does not shut its stream. */
  predicate StaysOpen(p: Pending, q: Pending, v: Verdict) {
    v.Accepted? || v.Rejected? ==> q.sock.shut == p.sock.shut
  }

  ghost predicate AllJudged(w: Setup, hook: Hook, now: nat, one: bool, ps: seq<Pending>, r: Polled, before: nat)
    requires w.Sound()
  {
    && |r.cons| == |ps| == |r.verdicts|
    && forall i :: 0 <= i < |ps| ==>
         var n := Speakers(w, now, ps[..i]);
         Judged(w, hook, now, one && n > 0, ps[i], r.verdicts[i], r.calls, before + n) && StaysOpen(ps[i], r.cons[i], r.verdicts[i])
  }

  lemma {:induction false} SpeakersFirst(w: Setup, now: nat, ps: seq<Pending>, i: nat)
    requires w.Sound() && 0 < i <= |ps|
    ensures Speakers(w, now, ps[..i]) == (if Speaks(w, now, ps[0]) then 1 else 0) + Speakers(w, now, ps[1..][..i - 1])
  {
    assert ps[..i][1..] == ps[1..][..i - 1];
  }

  lemma {:induction false} JudgedFirst(w: Setup, hook: Hook, now: nat, one: bool, ps: seq<Pending>, q: Pending, v: Verdict, rest: Polled, before: nat)
    requires w.Sound() && ps != []
    requires Judged(w, hook, now, false, ps[0], v, rest.calls, before) && StaysOpen(ps[0], q, v)
    requires !(one && Speaks(w, now, ps[0]))
    requires AllJudged(w, hook, now, one, ps[1..], rest, before + if Speaks(w, now, ps[0]) then 1 else 0)
    ensures AllJudged(w, hook, now, one, ps, Polled([q] + rest.cons, [v] + rest.verdicts, rest.calls), before)
  {
    hide Judged, Speaks, StaysOpen, Setup.Sound;
    var r := Polled([q] + rest.cons, [v] + rest.verdicts, rest.calls);
    forall i | 0 <= i < |ps|
      ensures var n := Speakers(w, now, ps[..i]);
              Judged(w, hook, now, one && n > 0, ps[i], r.verdicts[i], r.calls, before + n) && StaysOpen(ps[i], r.cons[i], r.verdicts[i])
    {
      if i == 0 {
        assert ps[..0] == [];
      } else {
        SpeakersFirst(w, now, ps, i);
        assert ps[i] == ps[1..][i - 1];
      }
    }
  }

  lemma {:induction false} JudgedOver(w: Setup, hook: Hook, now: nat, ps: seq<Pending>, q: Pending, v: Verdict, calls: seq<ConCall>, before: nat)
    requires w.Sound() && ps != [] && Speaks(w, now, ps[0])
    requires Judged(w, hook, now, false, ps[0], v, calls, before) && StaysOpen(ps[0], q, v)
    ensures AllJudged(w, hook, now, true, ps, Polled([q] + ps[1..], [v] + Waitings(|ps| - 1), calls), before)
  {
    hide Judged, Speaks, Setup.Sound;
    var r := Polled([q] + ps[1..], [v] + Waitings(|ps| - 1), calls);
    forall i | 0 <= i < |ps|
      ensures var n := Speakers(w, now, ps[..i]);
              Judged(w, hook, now, n > 0, ps[i], r.verdicts[i], r.calls, before + n) && StaysOpen(ps[i], r.cons[i], r.verdicts[i])
    {
      if i == 0 {
        assert ps[..0] == [];
      } else {
        SpeakersFirst(w, now, ps, i);
        OverWaits(w, hook, now, ps[i], calls, before + Speakers(w, now, ps[..i]));
      }
    }
  }

  lemma OverWaits(w: Setup, hook: Hook, now: nat, p: Pending, asked: seq<ConCall>, k: nat)
    requires w.Sound()
    ensures Judged(w, hook, now, true, p, Waiting, asked, k)
  {
  }

  lemma {:induction false} StillJudged(w: Setup, hook: Hook, now: nat, p: Pending, v: Verdict, asked: seq<ConCall>, more: seq<ConCall>, k: nat)
    requires w.Sound() && asked <= more && Judged(w, hook, now, false, p, v, asked, k)
    ensures Judged(w, hook, now, false, p, v, more, k)
  {
    hide Speaks, Lost, Setup.Sound;
    if k < |asked| {
      assert more[..k] == asked[..k];
    }
  }

  /** A connection whose message is of another type than the hook expects. */
  ghost predicate Misfit(w: Setup, c: TypeId, now: nat, p: Pending)
    requires w.Sound()
  {
    Speaks(w, now, p) && Words(w, now, p).tid != c
  }

  /** One step of the loop: what the connection in front is found to be. */
  lemma {:induction false} WeighsAsJudged(w: Setup, hook: Hook, c: TypeId, now: nat, p: Pending, calls: seq<ConCall>)
    requires w.Sound()
    ensures var (o, s) := PollCon(w, c, p.sock, p.since, now);
            && (o.Panicked? <==> Misfit(w, c, now, p))
            && (o.Returned? ==>
                  var (v, calls1) := Weigh(hook, calls, p.cid, o.value);
                  && (o.value.Ok? <==> Speaks(w, now, p)) && calls <= calls1
                  && |calls1| == |calls| + (if Speaks(w, now, p) then 1 else 0)
                  && Judged(w, hook, now, false, p, v, calls1, |calls|)
                  && StaysOpen(p, p.(sock := s), v))
  {
    PollConDecides(w, c, now, p);
    hide PollCon, Speaks, Lost, Words, Judged, Setup.Sound;
    if Speaks(w, now, p) {
      HookJudges(w, hook, now, p, calls);
    } else {
      hide Weigh;
      DeadOrWaiting(w, hook, now, p, calls, PollCon(w, c, p.sock, p.since, now).0.value);
    }
  }

  lemma {:induction false} HookJudges(w: Setup, hook: Hook, now: nat, p: Pending, calls: seq<ConCall>)
    requires w.Sound() && Speaks(w, now, p)
    ensures var (v, calls1) := Weigh(hook, calls, p.cid, Ok(Words(w, now, p)));
            && calls <= calls1 && |calls1| == |calls| + 1 && Judged(w, hook, now, false, p, v, calls1, |calls|)
  {
    hide Speaks, Lost, Words, Setup.Sound;
    var calls1 := Weigh(hook, calls, p.cid, Ok(Words(w, now, p))).1;
    assert calls1[..|calls|] == calls;
  }

  lemma {:induction false} DeadOrWaiting(w: Setup, hook: Hook, now: nat, p: Pending, calls: seq<ConCall>, got: Io<Msg>)
    requires w.Sound() && !Speaks(w, now, p) && got.Err? && (got.kind == WouldBlock <==> !Lost(w, now, p))
    ensures var (v, calls1) := Weigh(hook, calls, p.cid, got);
            calls1 == calls && (v == Waiting || v == Dead) && Judged(w, hook, now, false, p, v, calls, |calls|)
  {
    hide Speaks, Lost, Setup.Sound;
  }

  ghost predicate Stops(w: Setup, c: TypeId, now: nat, one: bool, ps: seq<Pending>)
    requires w.Sound()
  {
    exists i :: 0 <= i < |ps| && Misfit(w, c, now, ps[i]) && !(one && Speakers(w, now, ps[..i]) > 0)
  }

  lemma {:induction false} StopsFirst(w: Setup, c: TypeId, now: nat, one: bool, ps: seq<Pending>)
    requires w.Sound() && ps != []
    ensures Stops(w, c, now, one, ps) <==>
            Misfit(w, c, now, ps[0]) || (!(one && Speaks(w, now, ps[0])) && Stops(w, c, now, one, ps[1..]))
  {
    hide Misfit, Speaks, Setup.Sound;
    assert ps[..0] == [];
    var t := ps[1..];
    forall i | 0 < i < |ps|
      ensures ps[i] == t[i - 1] && Speakers(w, now, ps[..i]) == (if Speaks(w, now, ps[0]) then 1 else 0) + Speakers(w, now, t[..i - 1])
    {
      SpeakersFirst(w, now, ps, i);
    }
    if Stops(w, c, now, one, t) && !(one && Speaks(w, now, ps[0])) {
      var i :| 0 <= i < |t| && Misfit(w, c, now, t[i]) && !(one && Speakers(w, now, t[..i]) > 0);
      assert Misfit(w, c, now, ps[i + 1]) && !(one && Speakers(w, now, ps[..i + 1]) > 0);
    }
    if Misfit(w, c, now, ps[0]) {
      assert Speakers(w, now, ps[..0]) == 0;
    }
  }

  /** The whole loop: it panics exactly at a connection message of another type, it calls
      the hook for each connection that speaks (for the first one only, with `one`), and
      each connection is judged by the clock, its own stream and the hook's answer. */
  lemma {:induction false} PollJudges(w: Setup, hook: Hook, c: TypeId, now: nat, one: bool, ps: seq<Pending>, calls: seq<ConCall>)
    requires w.Sound()
    ensures var o := Poll(w, hook, c, now, one, ps, calls);
            && (o.Panicked? <==> Stops(w, c, now, one, ps))
            && (o.Returned? ==>
                  && AllJudged(w, hook, now, one, ps, o.value, |calls|) && calls <= o.value.calls
                  && |o.value.calls| == |calls| + (if one then Min(1, Speakers(w, now, ps)) else Speakers(w, now, ps)))
    decreases |ps|
  {
    hide PollCon, Weigh, AllJudged, Judged, StaysOpen, Speaks, Stops, Misfit, Setup.Sound;
    if ps == [] {
      NobodyJudged(w, hook, c, now, one, calls);
    } else {
      var (o, s) := PollCon(w, c, ps[0].sock, ps[0].since, now);
      var q := ps[0].(sock := s);
      WeighsAsJudged(w, hook, c, now, ps[0], calls);
      StopsFirst(w, c, now, one, ps);
      if o.Returned? {
        var (v, calls1) := Weigh(hook, calls, ps[0].cid, o.value);
        if one && o.value.Ok? {
          JudgedOver(w, hook, now, ps, q, v, calls1, |calls|);
        } else {
          PollJudges(w, hook, c, now, one, ps[1..], calls1);
          var rest := Poll(w, hook, c, now, one, ps[1..], calls1);
          if rest.Returned? {
            StillJudged(w, hook, now, ps[0], v, calls1, rest.value.calls, |calls|);
            JudgedFirst(w, hook, now, one, ps, q, v, rest.value, |calls|);
          }
        }
      }
    }
  }

  lemma {:induction false} NobodyJudged(w: Setup, hook: Hook, c: TypeId, now: nat, one: bool, calls: seq<ConCall>)
    requires w.Sound()
    ensures !Stops(w, c, now, one, []) && AllJudged(w, hook, now, one, [], Polled([], [], calls), |calls|)
  {
  }

  // --------------------------------------------------------------- the answers

  /** The stream is open and takes the whole response. */
  predicate Takes(w: Setup, s: Socket, resp: Msg)
    requires w.Sound()
  {
    Sendable(w, resp) && !s.shut && s.room >= |Greeting(w, resp)|
  }

  /** Where a decided connection is, and what was written to it: the answer it was given,
      as one frame behind what its stream carried before, or nothing if it died. */
  ghost predicate Replied(w: Setup, st1: State, p: Pending, v: Verdict)
    requires w.Sound()
  {
    match v
    case Accepted(resp) =>
      p.cid in st1.tcp && (Takes(w, p.sock, resp) ==> st1.tcp[p.cid].out == p.sock.out + Greeting(w, resp))
    case Rejected(resp) =>
      p.cid in st1.history.dropped && (Takes(w, p.sock, resp) ==> st1.history.dropped[p.cid].out == p.sock.out + Greeting(w, resp))
    case Dead => p.cid in st1.history.dropped && OnlyRead(p.sock, st1.history.dropped[p.cid])
    case Waiting => true
  }

  lemma {:induction false} SettleAnswers(w: Setup, st: State, p: Pending, v: Verdict)
    requires w.Sound() && Settle(w, st, p, v).Returned?
    ensures Replied(w, Settle(w, st, p, v).value, p, v)
  {
    if (v.Accepted? || v.Rejected?) && Takes(w, p.sock, v.resp) {
      ResponseRoute(w, v.resp);
    }
    if v.Accepted? {
      SendToSame(w, AddTcpCon(st, p.cid, p.sock), p.cid, v.resp);
    }
    hide Encode, MsgTableParts.Shaped;
  }

  lemma {:induction false} SettleLeavesOthers(w: Setup, st: State, p: Pending, v: Verdict, c: CId)
    requires w.Sound() && Settle(w, st, p, v).Returned? && c != p.cid
    ensures Settle(w, st, p, v).value.newCons == st.newCons
    ensures SameAt(st, Settle(w, st, p, v).value, c)
  {
    hide SameAt, AcceptIncoming, RejectIncoming, Setup.Sound;
    match v
    case Accepted(resp) => AcceptLeaves(w, st, p.cid, p.sock, resp, c);
    case Rejected(resp) => RejectLeaves(w, st, p.cid, p.sock, resp, c);
    case Dead => DropLeaves(st, p.cid, p.sock, c);
    case Waiting => SameAtSelf(st, c);
  }

  lemma {:induction false} AcceptLeaves(w: Setup, st: State, cid: CId, s: Socket, resp: Msg, c: CId)
    requires w.Sound() && c != cid
    ensures AcceptIncoming(w, st, cid, s, resp).newCons == st.newCons && SameAt(st, AcceptIncoming(w, st, cid, s, resp), c)
  {
    SendWrites(w, AddTcpCon(st, cid, s), cid, resp);
    hide SendTo, SendOn, Setup.Route, Setup.Sound;
  }

  lemma {:induction false} RejectLeaves(w: Setup, st: State, cid: CId, s: Socket, resp: Msg, c: CId)
    requires w.Sound() && c != cid && RejectIncoming(w, st, cid, s, resp).Returned?
    ensures RejectIncoming(w, st, cid, s, resp).value.newCons == st.newCons && SameAt(st, RejectIncoming(w, st, cid, s, resp).value, c)
  {
    hide SendOn, MsgTableParts.Shaped;
  }

  lemma {:induction false} DropLeaves(st: State, cid: CId, s: Socket, c: CId)
    requires c != cid
    ensures Drop(st, cid, s).newCons == st.newCons && SameAt(st, Drop(st, cid, s), c)
  {
  }

  lemma SameAtSelf(st: State, c: CId)
    ensures SameAt(st, st, c)
  {
  }

  /** Nothing happened to `c`. */
  ghost predicate SameAt(st: State, st1: State, c: CId) {
    && (c in st1.tcp <==> c in st.tcp) && (c in st.tcp ==> st1.tcp[c] == st.tcp[c])
    && (c in st1.history.dropped <==> c in st.history.dropped)
    && (c in st.history.dropped ==> st1.history.dropped[c] == st.history.dropped[c])
  }

  lemma {:induction false} CarryLeaves(w: Setup, st: State, plan: seq<Job>, c: CId)
    requires w.Sound() && Carry(w, st, plan).Returned?
    requires forall i :: 0 <= i < |st.newCons| ==> st.newCons[i].cid != c
    ensures SameAt(st, Carry(w, st, plan).value, c)
    decreases |plan|
  {
    hide Settle, Setup.Sound;
    if plan != [] {
      var i, v := plan[0].idx, plan[0].verdict;
      var st0 := st.(newCons := RemoveAt(st.newCons, i));
      SettleLeavesOthers(w, st0, st.newCons[i], v, c);
      CarryLeaves(w, Settle(w, st0, st.newCons[i], v).value, plan[1..], c);
    }
  }

  lemma {:induction false} RepliedSame(w: Setup, st: State, st1: State, p: Pending, v: Verdict)
    requires w.Sound() && Replied(w, st, p, v) && SameAt(st, st1, p.cid)
    ensures Replied(w, st1, p, v)
  {
    hide Takes, Greeting, Setup.Sound;
  }

  /** A descending replay gives every connection it is for its own answer. */
  lemma {:induction false} CarryAnswers(w: Setup, st: State, plan: seq<Job>)
    requires w.Sound() && Carry(w, st, plan).Returned? && NoDup(CidsOf(st.newCons)) && Descending(Idxs(plan))
    requires forall k :: 0 <= k < |plan| ==> plan[k].idx < |st.newCons|
    ensures forall k :: 0 <= k < |plan| ==> Replied(w, Carry(w, st, plan).value, st.newCons[plan[k].idx], plan[k].verdict)
    decreases |plan|
  {
    hide Settle, Replied, SameAt, Setup.Sound, NoDup, Descending;
    if plan != [] {
      var i, v, rest := plan[0].idx, plan[0].verdict, plan[1..];
      var p, st0 := st.newCons[i], st.(newCons := RemoveAt(st.newCons, i));
      var st1 := Settle(w, st0, p, v).value;
      var st2 := Carry(w, st1, rest).value;
      SettleAnswers(w, st0, p, v);
      Admission.SettleLeaves(w, st0, p, v);
      BelowFirst(st.newCons, plan);
      CarryLeaves(w, st1, rest, p.cid);
      RepliedSame(w, st1, st2, p, v);
      CarryAnswers(w, st1, rest);
      forall k | 0 <= k < |plan|
        ensures Replied(w, st2, st.newCons[plan[k].idx], plan[k].verdict)
      {
        if k > 0 {
          assert plan[k] == rest[k - 1];
        }
      }
    }
  }

  lemma {:induction false} BelowFirst(ps: seq<Pending>, plan: seq<Job>)
    requires plan != [] && plan[0].idx < |ps| && NoDup(CidsOf(ps)) && Descending(Idxs(plan))
    ensures var left := RemoveAt(ps, plan[0].idx);
            && NoDup(CidsOf(left)) && Descending(Idxs(plan[1..]))
            && (forall k :: 0 <= k < |left| ==> left[k].cid != ps[plan[0].idx].cid)
            && (forall k :: 0 <= k < |plan| - 1 ==> plan[1..][k].idx < |left| && left[plan[1..][k].idx] == ps[plan[1..][k].idx])
  {
    var i := plan[0].idx;
    var left := RemoveAt(ps, i);
    assert CidsOf(left) == RemoveAt(CidsOf(ps), i);
    NoDupRemove(CidsOf(ps), i);
    forall k | 0 <= k < |left|
      ensures left[k].cid != ps[i].cid
    {
      assert CidsOf(left)[k] in CidsOf(left);
    }
    forall k | 0 <= k < |plan| - 1
      ensures plan[1..][k].idx < i
    {
      assert Idxs(plan)[k + 1] < Idxs(plan)[0];
    }
    forall a, b | 0 <= a < b < |plan| - 1
      ensures Idxs(plan[1..])[a] > Idxs(plan[1..])[b]
    {
      assert Idxs(plan)[a + 1] > Idxs(plan)[b + 1];
    }
  }

  // -------------------------------------------------------------------- the pass

  lemma {:induction false} OthersHas<T>(s: seq<T>, gone: iset<nat>, i: nat)
    requires i < |s| && i !in gone
    ensures s[i] in Others(s, gone)
    decreases |s|
  {
    var n := |s| - 1;
    if i < n {
      OthersHas(s[..n], gone, i);
    }
  }

  /** What became of `p`: one that waits is still pending, with its id and the time it came,
      and nothing was written to it; any other is where its verdict sends it, with
      the answer it was given. */
  ghost predicate Treated(w: Setup, st1: State, p: Pending, v: Verdict)
    requires w.Sound()
  {
    && (p.cid in st1.tcp <==> v.Accepted?)
    && (p.cid in st1.history.dropped <==> v.Rejected? || v.Dead?)
    && (if v == Waiting then exists q :: q in st1.newCons && q == p.(sock := q.sock) && OnlyRead(p.sock, q.sock)
        else forall q :: q in st1.newCons ==> q.cid != p.cid)
    && Replied(w, st1, p, v)
  }

  lemma {:induction false} CarryTreats(w: Setup, st: State, vs: seq<Verdict>)
    requires w.Sound() && |vs| == |st.newCons| && Falling(vs) && AllFresh(st, st.newCons) && Carry(w, st, Plan(vs)).Returned?
    ensures var st1 := Carry(w, st, Plan(vs)).value;
            && st1.newCons == Others(st.newCons, Decided(vs))
            && forall i :: 0 <= i < |vs| ==> Fate(st1, st.newCons[i], vs[i]) && Replied(w, st1, st.newCons[i], vs[i])
  {
    hide Carry, Plan, Falling, Others, Replied, Fate, Setup.Sound, Answers, Descending, NoDup;
    PlanActs(vs);
    CarryServes(w, st, Plan(vs));
    Admission.AllAnswerEach(w, vs);
    FallingSettles(w, st, vs);
    PlanDescending(vs);
    PlanInRange(vs);
    CarryAnswers(w, st, Plan(vs));
    PlanIs(vs);
    forall i | 0 <= i < |vs|
      ensures Replied(w, Carry(w, st, Plan(vs)).value, st.newCons[i], vs[i])
    {
      if vs[i] == Waiting {
        WaitingHasNone(w, Carry(w, st, Plan(vs)).value, st.newCons[i]);
      } else {
        assert Job(i, vs[i]) in Plan(vs);
      }
    }
  }

  lemma WaitingHasNone(w: Setup, st1: State, p: Pending)
    requires w.Sound()
    ensures Replied(w, st1, p, Waiting)
  {
  }

  lemma {:induction false} TreatedBy(w: Setup, st1: State, p: Pending, q: Pending, v: Verdict)
    requires w.Sound() && q == p.(sock := q.sock) && OnlyRead(p.sock, q.sock) && StaysOpen(p, q, v)
    requires Fate(st1, q, v) && Replied(w, st1, q, v)
    requires if v == Waiting then q in st1.newCons else forall x :: x in st1.newCons ==> x.cid != p.cid
    ensures Treated(w, st1, p, v)
  {
    hide Greeting, Sendable, Setup.Sound;
  }

  lemma {:induction false} DecidedGone(ps: seq<Pending>, vs: seq<Verdict>, i: nat)
    requires |vs| == |ps| && i < |ps| && NoDup(CidsOf(ps)) && vs[i] != Waiting
    ensures forall x :: x in Others(ps, Decided(vs)) ==> x.cid != ps[i].cid
  {
    hide Others;
    forall x | x in Others(ps, Decided(vs))
      ensures x.cid != ps[i].cid
    {
      Admission.OthersFrom(ps, Decided(vs), x);
      var k :| 0 <= k < |ps| && ps[k] == x && k !in Decided(vs);
      assert CidsOf(ps)[k] == CidsOf(ps)[i] ==> k == i;
    }
  }

  /** A pass over the pending connections that returns, from clock, streams and hook to what
      becomes of everybody. The hook is called for each connection that speaks, in their
      order (with `one`, for the first one only), and the count is the number of these
      calls. A connection's verdict is decided by its own stream, the clock and the
      hook's answer to it, and if the verdicts fall each connection gets what its
      verdict says, the hook's own answer included. */
  lemma {:induction false} PassByStreams(w: Setup, st: State, hook: Hook, c: TypeId, now: nat, one: bool) returns (vs: seq<Verdict>)
    requires w.Sound() && Inv(w, st) && StartIncoming(w, st, now).history.issued < CID_COUNT
    requires HandleNew(w, st, hook, c, now, one).Returned?
    ensures var ps := StartIncoming(w, st, now).newCons;
            var (st1, n) := HandleNew(w, st, hook, c, now, one).value;
            && |vs| == |ps| && st.history.asked <= st1.history.asked
            && n == |st1.history.asked| - |st.history.asked| == (if one then Min(1, Speakers(w, now, ps)) else Speakers(w, now, ps))
            && (forall i :: 0 <= i < |ps| ==>
                  var k := Speakers(w, now, ps[..i]);
                  Judged(w, hook, now, one && k > 0, ps[i], vs[i], st1.history.asked[|st.history.asked|..], k))
            && !Stops(w, c, now, one, ps)
            && (Falling(vs) ==> forall i :: 0 <= i < |ps| ==> Treated(w, st1, ps[i], vs[i]))
  {
    hide StartIncoming, Poll, Carry, Plan, Falling, Inv, Others, Decided, Judged, StaysOpen, Treated, Fate, Replied, Setup.Sound, AllFresh, Speakers, Later, OnlyRead, Stops;
    var st0 := StartIncoming(w, st, now);
    var ps := st0.newCons;
    var mvs := StartIncomingMoves(w, st, now, Op.New(hook, c, now, one));
    MovesKeep(w, st, mvs);
    StartAsks(w, st, now);
    PollJudges(w, hook, c, now, one, ps, []);
    if ps == [] {
      vs := [];
      Admission.EmptyPass(w, hook, c, now, one, st0);
      NobodyJudged(w, hook, c, now, one, []);
      assert st0.history.asked[|st.history.asked|..] == [];
    } else {
      var p := Poll(w, hook, c, now, one, ps, []).value;
      var st2 := AfterPoll(st0, p);
      var st1 := HandleNew(w, st, hook, c, now, one).value.0;
      vs := p.verdicts;
      Admission.PollCounts(w, hook, c, now, one, ps, []);
      Admission.AnsweredPicks(vs);
      CarriedAsked(w, st2, Plan(vs));
      assert (st.history.asked + p.calls)[|st.history.asked|..] == p.calls;
      AskKeeps(w, st0, hook, c, now, one);
      Admission.PendingNeverTold(w, st2);
      PollReads(w, hook, c, now, one, ps, []);
      if Falling(vs) {
        FallingTreats(w, hook, now, one, ps, p, st2);
      }
    }
  }

  lemma {:induction false} FallingTreats(w: Setup, hook: Hook, now: nat, one: bool, ps: seq<Pending>, p: Polled, st: State)
    requires w.Sound() && AllJudged(w, hook, now, one, ps, p, 0) && Polls(ps, p.cons) && Falling(p.verdicts)
    requires st.newCons == p.cons && AllFresh(st, st.newCons) && Carry(w, st, Plan(p.verdicts)).Returned?
    ensures forall i :: 0 <= i < |ps| ==> Treated(w, Carry(w, st, Plan(p.verdicts)).value, ps[i], p.verdicts[i])
  {
    hide Carry, Plan, Falling, Others, Judged, StaysOpen, Treated, Fate, Replied, Setup.Sound, Speakers, OnlyRead, NoDup;
    var vs := p.verdicts;
    var st1 := Carry(w, st, Plan(vs)).value;
    CarryTreats(w, st, vs);
    forall i | 0 <= i < |ps|
      ensures Treated(w, st1, ps[i], vs[i])
    {
      if vs[i] == Waiting {
        OthersHas(p.cons, Decided(vs), i);
      } else {
        DecidedGone(p.cons, vs, i);
      }
      TreatedBy(w, st1, ps[i], p.cons[i], vs[i]);
    }
  }

  lemma {:induction false} StartAsks(w: Setup, st: State, now: nat)
    ensures StartIncoming(w, st, now).history.asked == st.history.asked
    decreases |st.listener|
  {
    if |st.newCons| < w.config.maxConHandle && st.listener != [] && st.listener[0].Some? {
      StartAsks(w, Issue(st.(listener := st.listener[1..]), st.listener[0].value, now), now);
    }
  }

  lemma {:induction false} CarriedAsked(w: Setup, st: State, plan: seq<Job>)
    requires w.Sound() && Carry(w, st, plan).Returned?
    ensures Carry(w, st, plan).value.history.asked == st.history.asked
    decreases |plan|
  {
    hide Settle, Setup.Sound;
    if plan != [] {
      var i, v := plan[0].idx, plan[0].verdict;
      var st0 := st.(newCons := RemoveAt(st.newCons, i));
      SettleAsks(w, st0, st.newCons[i], v);
      CarriedAsked(w, Settle(w, st0, st.newCons[i], v).value, plan[1..]);
    }
  }

  lemma SettleAsks(w: Setup, st: State, p: Pending, v: Verdict)
    requires w.Sound()
    ensures Settle(w, st, p, v).Returned? ==> Settle(w, st, p, v).value.history.asked == st.history.asked
  {
  }

  /** If no connection speaks and none is lost, a pass changes nothing but how far streams
      were looked at: everybody is still pending, in order, with id and time. */
  lemma {:induction false} NobodyDecided(w: Setup, st: State, hook: Hook, c: TypeId, now: nat, one: bool)
    requires w.Sound()
    requires forall p :: p in StartIncoming(w, st, now).newCons ==> !Lost(w, now, p) && !Speaks(w, now, p)
    ensures HandleNew(w, st, hook, c, now, one).Returned?
    ensures var (st0, (st1, n)) := (StartIncoming(w, st, now), HandleNew(w, st, hook, c, now, one).value);
            && n == 0 && st1 == st0.(newCons := st1.newCons) && Polls(st0.newCons, st1.newCons)
  {
    hide StartIncoming, Poll, Lost, Speaks, Setup.Sound, OnlyRead;
    var st0 := StartIncoming(w, st, now);
    var ps := st0.newCons;
    PollJudges(w, hook, c, now, one, ps, []);
    PollReads(w, hook, c, now, one, ps, []);
    NobodySpeaks(w, now, ps);
    assert !Stops(w, c, now, one, ps);
    if ps != [] {
      var p := Poll(w, hook, c, now, one, ps, []).value;
      forall i | 0 <= i < |ps|
        ensures p.verdicts[i] == Waiting
      {
        assert ps[i] in ps;
        NobodySpeaks(w, now, ps[..i]);
      }
      assert p.verdicts == [] + Waitings(|ps|);
      ListsWaiting([], |ps|);
      ListsNone();
      hide Pick;
      Units(st0.history.asked);
    }
  }

  lemma {:induction false} NobodySpeaks(w: Setup, now: nat, ps: seq<Pending>)
    requires w.Sound() && forall p :: p in ps ==> !Speaks(w, now, p)
    ensures Speakers(w, now, ps) == 0
  {
    hide Speaks, Setup.Sound;
    if ps != [] {
      assert ps[0] in ps;
      NobodySpeaks(w, now, ps[1..]);
    }
  }

  /** `handle_new_con` returns true exactly when some pending connection speaks. */
  lemma {:induction false} ConHandledExactly(w: Setup, st: State, hook: Hook, c: TypeId, now: nat)
    requires w.Sound() && Inv(w, st) && StartIncoming(w, st, now).history.issued < CID_COUNT
    requires HandleNewCon(w, st, hook, c, now).Returned?
    ensures HandleNewCon(w, st, hook, c, now).value.1 <==> exists p :: p in StartIncoming(w, st, now).newCons && Speaks(w, now, p)
  {
    hide HandleNew, StartIncoming, Inv, Judged, Treated, Speaks, Falling, Stops, Setup.Sound;
    var ps := StartIncoming(w, st, now).newCons;
    var vs := PassByStreams(w, st, hook, c, now, true);
    if forall p :: p in ps ==> !Speaks(w, now, p) {
      NobodySpeaks(w, now, ps);
    }
    SomebodySpeaks(w, now, ps);
  }

  lemma {:induction false} SomebodySpeaks(w: Setup, now: nat, ps: seq<Pending>)
    requires w.Sound()
    ensures forall p :: p in ps && Speaks(w, now, p) ==> Speakers(w, now, ps) > 0
    decreases |ps|
  {
    hide Speaks, Setup.Sound;
    if ps != [] {
      SomebodySpeaks(w, now, ps[1..]);
      HeadTail(ps);
      assert forall p :: p in ps <==> p == ps[0] || p in ps[1..];
    }
  }

  // ------------------------------------------------------------ new connections

  /** The id issued `i` ids after `c`. */
  function CidAfter(c: CId, i: nat): CId {
    (c + i) % CID_COUNT
  }

  lemma CidSteps(c: CId, i: nat)
    ensures CidAfter(c, 0) == c && CidAfter(c, 1) == NextCid(c) && CidAfter(NextCid(c), i) == CidAfter(c, i + 1)
  {
  }

  /** What the listener's offer `i` becomes. */
  function Enrolled(st: State, i: nat, now: nat): Pending
    requires i < |st.listener| && st.listener[i].Some?
  {
    var a := st.listener[i].value;
    Pending(Socket(a.peer, a.feed, 0, [], a.room, false, a.shutFails, true), CidAfter(st.currentCid, i + 1), now)
  }

  /** The first `k` offers are streams, and `more` are what they become. */
  ghost predicate AreEnrolled(st: State, k: nat, now: nat, more: seq<Pending>) {
    k == |more| <= |st.listener| && forall i :: 0 <= i < k ==> st.listener[i].Some? && more[i] == Enrolled(st, i, now)
  }

  lemma {:induction false} EnrolledFirst(st: State, now: nat, k: nat, more: seq<Pending>)
    requires st.listener != [] && st.listener[0].Some?
    requires AreEnrolled(Issue(st.(listener := st.listener[1..]), st.listener[0].value, now), k, now, more)
    ensures AreEnrolled(st, k + 1, now, [Enrolled(st, 0, now)] + more)
    ensures Issue(st.(listener := st.listener[1..]), st.listener[0].value, now).newCons == st.newCons + [Enrolled(st, 0, now)]
  {
    var st1 := Issue(st.(listener := st.listener[1..]), st.listener[0].value, now);
    CidSteps(st.currentCid, 0);
    hide CidAfter, NextCid;
    forall i | 0 < i < k + 1
      ensures st.listener[i].Some? && more[i - 1] == Enrolled(st, i, now)
    {
      CidSteps(st.currentCid, i);
      assert st.listener[i] == st1.listener[i - 1];
    }
  }

  /** The state when `more` are pending behind the others; a refusal by the listener that
      ended it is gone. */
  function WithPending(st: State, more: seq<Pending>, limit: nat): State
    requires |more| <= |st.listener|
  {
    var k := |more|;
    st.(currentCid := CidAfter(st.currentCid, k), newCons := st.newCons + more,
        listener := st.listener[if |st.newCons| + k < limit && k < |st.listener| then k + 1 else k..],
        history := st.history.(issued := st.history.issued + k))
  }

  lemma {:induction false} WithFirst(st: State, now: nat, rest: seq<Pending>, limit: nat)
    requires st.listener != [] && st.listener[0].Some? && |rest| < |st.listener|
    ensures var st1 := Issue(st.(listener := st.listener[1..]), st.listener[0].value, now);
            WithPending(st1, rest, limit) == WithPending(st, [Enrolled(st, 0, now)] + rest, limit)
  {
    EnrolledFirst(st, now, 0, []);
    CidSteps(st.currentCid, |rest|);
    Assoc(st.newCons, [Enrolled(st, 0, now)], rest);
    hide CidAfter, NextCid, Enrolled;
  }

  lemma NoneEnrolled(st: State, now: nat)
    ensures AreEnrolled(st, 0, now, [])
  {
  }

  lemma WithNothing(st: State, limit: nat)
    ensures WithPending(st, [], limit) == st.(listener := st.listener[if |st.newCons| < limit && st.listener != [] then 1 else 0..])
  {
    CidSteps(st.currentCid, 0);
    Units(st.newCons);
  }

  /** The streams the listener offers become pending in their order, each untouched, with
      the next id and the present time, until the limit is reached or the listener has
      no more; nothing else changes. */
  lemma {:induction false} OffersPend(w: Setup, st: State, now: nat) returns (more: seq<Pending>)
    ensures var k := |more|;
            && k <= |st.listener| && AreEnrolled(st, k, now, more) && (k > 0 ==> |st.newCons| + k <= w.config.maxConHandle)
            && (|st.newCons| + k >= w.config.maxConHandle || k == |st.listener| || st.listener[k].None?)
            && StartIncoming(w, st, now) == WithPending(st, more, w.config.maxConHandle)
    decreases |st.listener|
  {
    hide AreEnrolled, Enrolled, WithPending, NewSocket;
    more := [];
    WithNothing(st, w.config.maxConHandle);
    NoneEnrolled(st, now);
    if |st.newCons| < w.config.maxConHandle && st.listener != [] && st.listener[0].Some? {
      var st1 := Issue(st.(listener := st.listener[1..]), st.listener[0].value, now);
      var rest := OffersPend(w, st1, now);
      EnrolledFirst(st, now, |rest|, rest);
      WithFirst(st, now, rest, w.config.maxConHandle);
      more := [Enrolled(st, 0, now)] + rest;
    }
  }
}
