/** How a connection ends while it is read, and what the two sides make of it. */
module Failures {
  import opened Prelude
  import opened Net
  import opened MessageTable
  import opened Tcp
  import opened Inbound
  import opened Framing
  import opened EndToEnd
  import M = ServerModel
  import C = ClientModel
  import Receiving

  /** What the next `recv` finds ends the connection with `status`: the stream fails for
      good, or all of a frame is there that is no ordinary message and does not panic. */
  ghost predicate EndsNow(w: Setup, s: Socket, status: Status) {
    || (status.Dropped? && Fails(w.TcpSize(), s, status.kind))
    || (Whole(w.TcpSize(), s) && !Plain(w, Front(s)) && Front(s).mid != w.parts.MidCount() && status == EndOf(w, Front(s)))
  }

  /** The same after `j` frames that are ordinary messages. */
  ghost predicate EndsAfter(w: Setup, s: Socket, j: nat, status: Status)
    decreases j
  {
    if j == 0 then EndsNow(w, s, status)
    else Whole(w.TcpSize(), s) && Plain(w, Front(s)) && EndsAfter(w, RecvOn(w.TcpSize(), s).1, j - 1, status)
  }

  ghost predicate EndsEver(w: Setup, s: Socket, status: Status) {
    exists j: nat :: EndsAfter(w, s, j, status)
  }

  lemma {:induction false} EndsStep(w: Setup, s: Socket, status: Status)
    ensures EndsEver(w, s, status) <==>
            EndsNow(w, s, status) || (Whole(w.TcpSize(), s) && Plain(w, Front(s)) && EndsEver(w, RecvOn(w.TcpSize(), s).1, status))
  {
    hide EndsNow, Headed, Announced, Plain, RecvOn;
    var t := RecvOn(w.TcpSize(), s).1;
    if j: nat :| EndsAfter(w, s, j, status) {
      if j > 0 {
        assert EndsAfter(w, t, j - 1, status);
      }
    }
    if EndsNow(w, s, status) {
      assert EndsAfter(w, s, 0, status);
    }
    if Whole(w.TcpSize(), s) && Plain(w, Front(s)) && EndsEver(w, t, status) {
      var j: nat :| EndsAfter(w, t, j, status);
      assert EndsAfter(w, s, j + 1, status);
    }
  }

  /** What one `recv` of the loop does, by what is on the stream. */
  lemma {:induction false} DrainsFront(w: Setup, c: CId, s: Socket)
    requires w.Sound() && Drain(w, c, s).Returned?
    ensures var (size, d) := (w.TcpSize(), Drain(w, c, s).value);
            var t := RecvOn(size, s).1;
            if Whole(size, s) && Plain(w, Front(s)) then
              Drain(w, c, t).Returned? && d.end == Drain(w, c, t).value.end && |Upcoming(t)| < |Upcoming(s)| && forall status :: !EndsNow(w, s, status)
            else if d.end.Some? then EndsNow(w, s, d.end.value) && forall status :: EndsNow(w, s, status) ==> status == d.end.value
            else forall status :: !EndsNow(w, s, status)
  {
    var size := w.TcpSize();
    RecvMeets(size, s);
    RecvIs(w, c, s);
    NoTwo(size, s);
    var (r, t) := RecvOn(size, s);
    if r.Ok? {
      DecodePanicsExactly(w, r.value.mid, r.value.payload);
      ShorterBehind(size, s);
    }
    hide Drain, RecvOn, Fails, Whole, Front, Plain, EndOf, MsgTableParts.Shaped, Upcoming;
  }

  lemma {:induction false} ShorterBehind(size: nat, s: Socket)
    requires RecvOn(size, s).0.Ok?
    ensures |Upcoming(RecvOn(size, s).1)| < |Upcoming(s)|
  {
  }

  /** A stream that yields a frame does not fail. */
  lemma {:induction false} NoTwo(size: nat, s: Socket)
    ensures Whole(size, s) ==> forall kind :: !Fails(size, s, kind)
  {
  }

  /** Reading one connection dry ends it with a status exactly if, behind frames that are
      ordinary messages, the stream fails for good or a frame comes that says so. */
  lemma {:induction false} DrainEndsExactly(w: Setup, c: CId, s: Socket)
    requires w.Sound() && Drain(w, c, s).Returned?
    ensures forall status :: Drain(w, c, s).value.end == Some(status) <==> EndsEver(w, s, status)
    decreases |Upcoming(s)|
  {
    DrainsFront(w, c, s);
    hide Drain, EndsNow, EndsEver, Whole, Plain, RecvOn, Upcoming, Setup.Sound;
    var t := RecvOn(w.TcpSize(), s).1;
    if Whole(w.TcpSize(), s) && Plain(w, Front(s)) {
      DrainEndsExactly(w, c, t);
    }
    forall status
      ensures Drain(w, c, s).value.end == Some(status) <==> EndsEver(w, s, status)
    {
      EndsStep(w, s, status);
    }
  }

  /** `recv_msgs` takes a connected client to another status exactly if its stream ends
      that way. */
  lemma {:induction false} ClientEndsExactly(w: Setup, st: C.State, status: Status)
    requires w.Sound() && |st.msgBuff| == w.parts.MidCount() && st.status.Connected?
    requires C.RecvMsgs(w, st).Returned? && !status.Connected?
    ensures C.RecvMsgs(w, st).value.0.status == status <==> EndsEver(w, st.tcp, status)
  {
    C.EndsProperly(w, 0, st.tcp);
    DrainEndsExactly(w, 0, st.tcp);
    hide Drain, C.DrainUdp, EndsEver, MsgTableParts.Shaped;
  }

  /** After `recv_msgs`, in whatever order, the disconnect queue of the server has for each
      live connection one more entry exactly if its stream ends, with the status it
      ends with; and no entry for anybody else. */
  lemma {:induction false} ServerNotesExactly(w: Setup, st: M.State, order: seq<CId>, c: CId)
    requires w.Sound() && |st.msgBuff| == w.parts.MidCount() && Receiving.Visits(order, st) && M.RecvMsgs(w, st, order).Returned?
    ensures var (before, after) := (Receiving.EntriesOf(st.disconnected, c), Receiving.EntriesOf(M.RecvMsgs(w, st, order).value.0.disconnected, c));
            && (c !in st.tcp ==> after == before)
            && (c in st.tcp ==> after == before || exists status :: after == before + [status])
            && (c in st.tcp ==> forall status :: after == before + [status] <==> EndsEver(w, st.tcp[c], status))
  {
    hide *;
    QueueStays(w, st, order);
    if c in st.tcp {
      var d := GrownQueue(w, st, order, c);
      DrainEndsExactly(w, c, st.tcp[c]);
      OneMore(Receiving.EntriesOf(st.disconnected, c), d.end);
    } else {
      QuietQueue(w, st, order, c);
    }
  }

  lemma {:induction false} GrownQueue(w: Setup, st: M.State, order: seq<CId>, c: CId) returns (d: Drained)
    requires w.Sound() && |st.msgBuff| == w.parts.MidCount() && Receiving.Visits(order, st) && M.RecvTcps(w, st, order).Returned?
    requires c in st.tcp
    ensures Drain(w, c, st.tcp[c]) == Returned(d)
    ensures Receiving.EntriesOf(M.RecvTcps(w, st, order).value.0.disconnected, c)
            == Receiving.EntriesOf(st.disconnected, c) + if d.end.Some? then [d.end.value] else []
  {
    Receiving.RecvTcpsGrow(w, st, order);
    hide M.RecvTcps, Drain, Setup.Sound, NoDup, Receiving.EntriesOf, Receiving.FromCid;
    d := Receiving.DrainOf(w, st, c).value;
  }

  lemma {:induction false} QuietQueue(w: Setup, st: M.State, order: seq<CId>, c: CId)
    requires w.Sound() && |st.msgBuff| == w.parts.MidCount() && Receiving.Visits(order, st) && M.RecvTcps(w, st, order).Returned?
    requires c !in st.tcp
    ensures Receiving.EntriesOf(M.RecvTcps(w, st, order).value.0.disconnected, c) == Receiving.EntriesOf(st.disconnected, c)
  {
    Receiving.RecvTcpsGrow(w, st, order);
    hide M.RecvTcps, Setup.Sound, NoDup, Receiving.EntriesOf, Receiving.FromCid, Receiving.Grew, Receiving.DrainOf;
  }

  lemma OneMore(before: seq<Status>, end: Option<Status>)
    ensures var after := before + if end.Some? then [end.value] else [];
            && (after == before || exists status :: after == before + [status])
            && forall status :: after == before + [status] <==> end == Some(status)
  {
    Units(before);
    if end.Some? {
      forall status
        ensures before + [status] == before + [end.value] <==> status == end.value
      {
        assert (before + [status])[|before|] == status && (before + [end.value])[|before|] == end.value;
      }
    } else {
      assert forall status :: |before + [status]| == |before| + 1;
    }
  }

  lemma {:induction false} QueueStays(w: Setup, st: M.State, order: seq<CId>)
    requires w.Sound() && |st.msgBuff| == w.parts.MidCount() && Receiving.Visits(order, st) && M.RecvMsgs(w, st, order).Returned?
    ensures M.RecvTcps(w, st, order).Returned?
    ensures M.RecvMsgs(w, st, order).value.0.disconnected == M.RecvTcps(w, st, order).value.0.disconnected
  {
    M.RecvTcpsKeeps(w, st, order);
    hide M.RecvTcps, M.DrainUdp, NoDup;
  }
}
