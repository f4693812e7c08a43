/** The client (`src/client.rs`) as functions on values, and what they promise.
    `Client.dfy` proves the methods against these functions. */
module ClientModel {
  import opened Prelude
  import opened Header
  import opened Net
  import opened MessageTable
  import opened Tcp
  import opened Udp
  import opened Inbound

  datatype State = State(status: Status, msgBuff: Buffers, tcp: Socket, udp: UdpSocket)

  function Send(w: Setup, st: State, m: Msg): (Io<()>, State)
    requires w.Sound()
  {
    match w.Route(m)
    case None => (Err(InvalidData), st)
    case Some((mid, TCP, b)) =>
      var (r, s) := SendOn(w.TcpSize(), st.tcp, Frame(mid, b));
      (r, st.(tcp := s))
    case Some((mid, UDP, b)) =>
      var (r, u) := SendToOn(w.UdpSize(), st.udp, st.udp.peer, mid, b);
      (r, st.(udp := u))
  }

  /** Indexing the type map with a type that is not registered panics. */
  function Disconnect(w: Setup, st: State, m: Msg): Outcome<(Io<()>, State)>
    requires w.Sound()
  {
    if m.tid !in w.parts.tidMap then Panicked
    else if w.parts.tidMap[m.tid] != DISCONNECT_TYPE_MID then Returned((Err(InvalidData), st))
    else
      var (sent, st1) := Send(w, st, m);
      if sent.Err? then Returned((sent, st1))
      else
        var (closed, s) := ShutdownOs(st1.tcp);
        if closed.Err? then Returned((closed, st1.(tcp := s)))
        else Returned((closed, st1.(tcp := s, status := Closed)))
  }

  // ------------------------------------------------------------------- receiving

  /** The first loop: while connected, frames are read until nothing is there. The
      message that ends the connection is the last one read. */
  ghost function RecvTcps(w: Setup, st: State): Outcome<(State, nat)>
    requires w.Sound() && |st.msgBuff| == w.parts.MidCount()
  {
    if !st.status.Connected? then Returned((st, 0))
    else
      var d :- Drain(w, 0, st.tcp);
      Returned((AfterTcp(st, d), d.Count()))
  }

  ghost function AfterTcp(st: State, d: Drained): State
    requires Below(d.got, |st.msgBuff|)
  {
    State(if d.end.Some? then d.end.value else st.status, PushAll(st.msgBuff, d.got), d.sock, st.udp)
  }

  function RecvUdpOn(w: Setup, u: UdpSocket): (r: (Outcome<Io<Letter>>, UdpSocket))
    ensures r.0.Returned? && r.0.value.Ok? ==> r.0.value.value.mid < |w.parts.deser| && r.0.value.value.msg.time.Some?
    ensures u.inbox == [] ==> r == (Returned(Err(WouldBlock)), u)
    ensures u.inbox != [] ==> r.1 == u.(inbox := u.inbox[1..])
  {
    var (o, u1) := RecvFromOn(w.UdpSize(), u);
    match o
    case Panicked => (Panicked, u1)
    case Returned(Err(kind)) => (Returned(Err(kind)), u1)
    case Returned(Ok(got)) =>
      match w.Decode(got.mid, got.payload)
      case Panicked => (Panicked, u1)
      case Returned(Err(kind)) => (Returned(Err(kind)), u1)
      case Returned(Ok(m)) => (Returned(Ok(Letter(got.mid, ErasedNetMsg(0, Some(got.time), m)))), u1)
  }

  datatype UdpDrained = UdpDrained(sock: UdpSocket, got: seq<Letter>)

  /** The second loop: an error is logged and skipped; only `WouldBlock` ends it. */
  function DrainUdp(w: Setup, u: UdpSocket): (r: Outcome<UdpDrained>)
    ensures r.Returned? ==> Below(r.value.got, |w.parts.deser|) && forall l :: l in r.value.got ==> l.msg.time.Some?
    decreases |u.inbox|
  {
    var (o, u1) := RecvUdpOn(w, u);
    var got :- o;
    if got.Err? then
      if got.kind == WouldBlock then Returned(UdpDrained(u1, [])) else DrainUdp(w, u1)
    else
      var rest :- DrainUdp(w, u1);
      Returned(rest.(got := [got.value] + rest.got))
  }

  function AfterUdp(got: seq<Letter>, r: Outcome<UdpDrained>): Outcome<UdpDrained> {
    match r
    case Panicked => Panicked
    case Returned(d) => Returned(d.(got := got + d.got))
  }

  lemma DrainUdpStep(w: Setup, u: UdpSocket, got: seq<Letter>)
    ensures var (o, u1) := RecvUdpOn(w, u);
            AfterUdp(got, DrainUdp(w, u)) ==
            match o
            case Panicked => Panicked
            case Returned(Err(kind)) => if kind == WouldBlock then Returned(UdpDrained(u1, got)) else AfterUdp(got, DrainUdp(w, u1))
            case Returned(Ok(l)) => AfterUdp(got + [l], DrainUdp(w, u1))
    ensures AfterUdp([], DrainUdp(w, u)) == DrainUdp(w, u)
  {
    Units(got);
    var (o, u1) := RecvUdpOn(w, u);
    if DrainUdp(w, u).Returned? {
      Units(DrainUdp(w, u).value.got);
    }
    if o.Returned? && o.value.Ok? && DrainUdp(w, u1).Returned? {
      Assoc(got, [o.value.value], DrainUdp(w, u1).value.got);
    }
  }

  ghost function RecvUdps(w: Setup, st: State): Outcome<(State, nat)>
    requires w.Sound() && |st.msgBuff| == w.parts.MidCount()
  {
    if !st.status.Connected? then Returned((st, 0))
    else
      var d :- DrainUdp(w, st.udp);
      Returned((st.(udp := d.sock, msgBuff := PushAll(st.msgBuff, d.got)), |d.got|))
  }

  ghost function RecvMsgs(w: Setup, st: State): Outcome<(State, nat)>
    requires w.Sound() && |st.msgBuff| == w.parts.MidCount()
  {
    var a :- RecvTcps(w, st);
    var b :- RecvUdps(w, a.0);
    Returned((b.0, a.1 + b.1))
  }

  function ClearMsgs(st: State): State {
    st.(msgBuff := seq(|st.msgBuff|, _ => []))
  }

  /** Clearing leaves every buffer empty and changes nothing else. */
  lemma ClearEmpties(st: State)
    ensures var st1 := ClearMsgs(st);
            && |st1.msgBuff| == |st.msgBuff| && st1 == st.(msgBuff := st1.msgBuff)
            && forall mid :: 0 <= mid < |st.msgBuff| ==> st1.msgBuff[mid] == []
  {
  }

  // ------------------------------------------------------------------- promises

  /** Once a client is not connected, receiving does nothing at all, whatever arrived. */
  lemma {:induction false} OverIsOver(w: Setup, st: State)
    requires w.Sound() && |st.msgBuff| == w.parts.MidCount() && !st.status.Connected?
    ensures RecvMsgs(w, st) == Returned((st, 0))
  {
  }

  ghost predicate Grown(b: Buffers, c: Buffers) {
    |c| == |b| && forall mid :: 0 <= mid < |b| ==> b[mid] <= c[mid]
  }

  lemma PushGrows(b: Buffers, got: seq<Letter>)
    requires Below(got, |b|)
    ensures Grown(b, PushAll(b, got)) && Total(PushAll(b, got)) == Total(b) + |got|
  {
    TotalPushAll(b, got);
    forall mid | 0 <= mid < |b|
      ensures b[mid] <= PushAll(b, got)[mid]
    {
      PushAllAppends(b, got, mid);
    }
  }

  /** The count is the growth of the buffers, plus one if the call ended with a
      disconnect message. Buffered messages stay in front. The status changes at most
      once, from connected to disconnected or dropped, and then no datagram is read. */
  lemma {:induction false} RecvCounts(w: Setup, st: State)
    requires w.Sound() && |st.msgBuff| == w.parts.MidCount() && st.status.Connected?
    ensures RecvMsgs(w, st).Returned? ==>
              var (st1, n) := RecvMsgs(w, st).value;
              && Grown(st.msgBuff, st1.msgBuff)
              && n == Total(st1.msgBuff) - Total(st.msgBuff) + (if st1.status.Disconnected? then 1 else 0)
              && !st1.status.Closed?
              && (!st1.status.Connected? ==> st1.udp == st.udp)
  {
    hide Drain, DrainUdp;
    var d := Drain(w, 0, st.tcp);
    if d.Returned? {
      EndsProperly(w, 0, st.tcp);
      PushGrows(st.msgBuff, d.value.got);
      var st1 := AfterTcp(st, d.value);
      if st1.status.Connected? && DrainUdp(w, st.udp).Returned? {
        PushGrows(st1.msgBuff, DrainUdp(w, st.udp).value.got);
      }
    }
  }

  /** Reading ends with a disconnect message, an error, or nothing to report. */
  lemma {:induction false} EndsProperly(w: Setup, cid: CId, s: Socket)
    ensures var d := Drain(w, cid, s);
            d.Returned? && d.value.end.Some? ==> d.value.end.value.Disconnected? || d.value.end.value.Dropped?
    decreases |Upcoming(s)|
  {
    var (o, t) := RecvMsgOn(w, cid, s);
    if o.Returned? && o.value.Ok? && o.value.value.mid != DISCONNECT_TYPE_MID {
      EndsProperly(w, cid, t);
    }
  }

  /** Unlike the server's, the client's loop gets past errors: every usable datagram
      that is there is buffered, in order. */
  function Usable(w: Setup, inbox: seq<Packet>): seq<Letter> {
    if inbox == [] then []
    else
      var o := RecvUdpOn(w, UdpSocket([inbox[0]], [], 0, 0, None)).0;
      (if o.Returned? && o.value.Ok? then [o.value.value] else []) + Usable(w, inbox[1..])
  }

  lemma {:induction false} ErrorsAreSkipped(w: Setup, u: UdpSocket)
    requires forall p :: p in u.inbox ==> p != Fault(WouldBlock)
    ensures DrainUdp(w, u).Returned? ==>
              DrainUdp(w, u).value == UdpDrained(u.(inbox := []), Usable(w, u.inbox))
    decreases |u.inbox|
  {
    if u.inbox != [] {
      var (o, u1) := RecvUdpOn(w, u);
      assert u.inbox[0] in u.inbox;
      assert o == RecvUdpOn(w, UdpSocket([u.inbox[0]], [], 0, 0, None)).0;
      assert forall p :: p in u1.inbox ==> p in u.inbox;
      ErrorsAreSkipped(w, u1);
    }
  }

  /** `send` goes the way of the entry the type is registered with: over TCP one frame
      with the entry's id on the stream and no datagram, over UDP one datagram with that
      id to the peer and nothing on the stream. When it succeeds, in both cases. */
  lemma {:induction false} SendsByEntry(w: Setup, st: State, m: Msg)
    requires w.Sound() && m.tid in w.parts.tidMap && w.serde.ser(m).Some?
    ensures var (r, st1) := Send(w, st, m);
            var f := Frame(w.parts.tidMap[m.tid], w.serde.ser(m).value);
            match w.parts.transports[w.parts.tidMap[m.tid]]
            case TCP =>
              && st1 == st.(tcp := st1.tcp)
              && (r.Ok? <==> !st.tcp.shut && |Encode(f)| <= Min(w.TcpSize(), st.tcp.room))
              && (r.Ok? ==> st1.tcp == st.tcp.(out := st.tcp.out + Encode(f), room := st.tcp.room - |Encode(f)|))
            case UDP =>
              && (r.Ok? <==> |f.payload| <= w.config.maxMsgSize && st.udp.sendFault.None?)
              && (r.Ok? ==> st1 == st.(udp := st.udp.(sent := st.udp.sent + [(st.udp.peer, DatagramBytes(f.mid, f.payload, st.udp.clock))])))
              && (r.Err? ==> st1 == st)
    ensures m.tid !in w.parts.tidMap || w.serde.ser(m).None? ==> Send(w, st, m) == (Err(InvalidData), st)
  {
    hide MsgTableParts.Shaped, DatagramBytes;
  }

  /** Leaving: with the disconnect type registered, `disconnect` closes the client
      exactly when the message could be written and the stream shut. The message is
      then the last thing the stream will ever carry, and receiving is over. */
  lemma {:induction false} LeavingIsFinal(w: Setup, st: State, m: Msg, later: Msg)
    requires w.Sound() && |st.msgBuff| == w.parts.MidCount()
    ensures Disconnect(w, st, m).Panicked? <==> m.tid !in w.parts.tidMap
    ensures Disconnect(w, st, m).Returned? ==>
              var (r, st1) := Disconnect(w, st, m).value;
              && (r.Ok? <==>
                    && w.parts.tidMap[m.tid] == DISCONNECT_TYPE_MID && w.serde.ser(m).Some? && !st.tcp.shut && !st.tcp.shutFails
                    && |w.serde.ser(m).value| + TCP_HEADER_LEN <= Min(w.TcpSize(), st.tcp.room))
              && (r.Ok? ==>
                    && st1.status == Closed && st1.tcp.shut && w.serde.ser(m).Some?
                    && st1.tcp.out == st.tcp.out + Encode(Frame(DISCONNECT_TYPE_MID, w.serde.ser(m).value))
                    && Send(w, st1, later).1.tcp.out == st1.tcp.out
                    && RecvMsgs(w, st1) == Returned((st1, 0)))
              && (r.Err? ==> st1.status == st.status && st1.msgBuff == st.msgBuff)
  {
    if m.tid in w.parts.tidMap && w.parts.tidMap[m.tid] == DISCONNECT_TYPE_MID {
      assert w.parts.transports[DISCONNECT_TYPE_MID] == TCP;
    }
    hide MsgTableParts.Shaped, Encode, Drain, DrainUdp;
  }

  // ------------------------------------------------------------------- handshake

  function Fresh(w: Setup, s: Socket, u: UdpSocket): State {
    State(Connected, seq(w.parts.MidCount(), _ => []), s, u)
  }

  /** `new_blocking` on a connected stream: the response, or why there is none, and
      the client. */
  function NewBlocking(w: Setup, con: Msg, s: Socket, u: UdpSocket): (Outcome<Io<Msg>>, State)
    requires w.Sound()
  {
    var (sent, st1) := Send(w, Fresh(w, s.(nonblocking := false), u), con);
    if sent.Err? then (Returned(Err(sent.kind)), st1)
    else
      var (o, t) := RecvMsgOn(w, 0, st1.tcp);
      var st2 := st1.(tcp := t);
      match o
      case Panicked => (Panicked, st2)
      case Returned(Err(kind)) => (Returned(Err(kind)), st2)
      case Returned(Ok(l)) =>
        if l.mid != RESPONSE_TYPE_MID then (Returned(Err(InvalidData)), st2)
        else (Returned(Ok(l.msg.msg)), st2.(tcp := t.(nonblocking := true)))
  }
}
