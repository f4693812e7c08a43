/** What one `recv_msgs` of a client leaves in its buffers, datagrams included. */
module Datagrams {
  import opened Prelude
  import opened Header
  import opened Net
  import opened MessageTable
  import opened Tcp
  import opened Udp
  import opened Inbound
  import opened ClientModel
  import opened Framing
  import EndToEnd
  import Panics

  /** The packets up to the first report that nothing more is there. */
  function Present(inbox: seq<Packet>): seq<Packet> {
    if inbox == [] || inbox[0] == Fault(WouldBlock) then [] else [inbox[0]] + Present(inbox[1..])
  }

  /** A readable datagram with a known id and a payload of that id's type. */
  predicate IsMessage(w: Setup, p: Packet) {
    var r := Read(w.UdpSize(), p);
    r.Returned? && r.value.Ok? && var o := w.Decode(r.value.value.mid, r.value.value.payload); o.Returned? && o.value.Ok?
  }

  /** What one packet means for buffer `mid`: its own message, with its send time, from
      the server, whose id is 0 here. */
  function MessageIn(w: Setup, p: Packet, mid: MId): seq<ErasedNetMsg> {
    if IsMessage(w, p) && Read(w.UdpSize(), p).value.value.mid == mid then
      var x := Read(w.UdpSize(), p).value.value;
      [ErasedNetMsg(0, Some(x.time), w.Decode(x.mid, x.payload).value.value)]
    else []
  }

  function MessagesIn(w: Setup, ps: seq<Packet>, mid: MId): seq<ErasedNetMsg> {
    if ps == [] then [] else MessageIn(w, ps[0], mid) + MessagesIn(w, ps[1..], mid)
  }

  function CountIn(w: Setup, ps: seq<Packet>): nat {
    if ps == [] then 0 else (if IsMessage(w, ps[0]) then 1 else 0) + CountIn(w, ps[1..])
  }

  ghost predicate AnyBad(w: Setup, ps: seq<Packet>) {
    exists p :: p in ps && Panics.BadPacket(w, p)
  }

  lemma BadFirst(w: Setup, p: Packet, rest: seq<Packet>)
    ensures AnyBad(w, [p] + rest) <==> Panics.BadPacket(w, p) || AnyBad(w, rest)
    ensures !AnyBad(w, [])
  {
    hide Panics.BadPacket;
    assert forall q :: q in [p] + rest <==> q == p || q in rest;
  }

  lemma {:induction false} OnePacket(w: Setup, u: UdpSocket)
    requires w.Sound() && u.inbox != []
    ensures var (o, p) := (RecvUdpOn(w, u).0, u.inbox[0]);
            && (o.Panicked? <==> Panics.BadPacket(w, p))
            && (p == Fault(WouldBlock) ==> o == Returned(Err(WouldBlock)))
            && (o.Returned? && o.value.Err? ==>
                  !IsMessage(w, p) && (o.value.kind == WouldBlock <==> p == Fault(WouldBlock)) && forall mid :: MessageIn(w, p, mid) == [])
            && (o.Returned? && o.value.Ok? ==>
                  && IsMessage(w, p) && p != Fault(WouldBlock)
                  && forall mid :: MessageIn(w, p, mid) == if o.value.value.mid == mid then [o.value.value.msg] else [])
  {
    var p := u.inbox[0];
    if p.Datagram? && |p.data| >= UDP_HEADER_LEN {
      var b := p.data[..UDP_HEADER_LEN];
      assert b[..2] == p.data[..2];
      var h := UdpHeaderFromBytes(b, p.clock);
      DecodePanicsExactly(w, h.mid, p.data[UDP_HEADER_LEN..Min(|p.data|, w.UdpSize())]);
    }
    hide U16FromBytes, MsgTableParts.Shaped;
  }

  /** The second loop takes every packet up to the first report that nothing is there,
      gets past those that are no message, and panics exactly if one of them panics. */
  lemma {:induction false} DrainsPresent(w: Setup, u: UdpSocket)
    requires w.Sound()
    ensures |Present(u.inbox)| <= |u.inbox|
    ensures DrainUdp(w, u).Panicked? <==> AnyBad(w, Present(u.inbox))
    ensures DrainUdp(w, u).Returned? ==>
              var d := DrainUdp(w, u).value;
              && |d.got| == CountIn(w, Present(u.inbox))
              && (forall mid :: OfMid(d.got, mid) == MessagesIn(w, Present(u.inbox), mid))
              && d.sock == u.(inbox := u.inbox[Min(|Present(u.inbox)| + 1, |u.inbox|)..])
    decreases |u.inbox|
  {
    hide RecvUdpOn, AnyBad, Panics.BadPacket, IsMessage, MessageIn, Setup.Sound;
    BadFirst(w, Fault(WouldBlock), []);
    if u.inbox != [] {
      OnePacket(w, u);
      var p := u.inbox[0];
      var (o, u1) := RecvUdpOn(w, u);
      if p != Fault(WouldBlock) {
        DrainsPresent(w, u1);
        var all, rest := Present(u.inbox), Present(u1.inbox);
        assert all == [p] + rest && all[0] == p && all[1..] == rest;
        BadFirst(w, p, rest);
        MessagesFirst(w, p, rest);
        assert u1.inbox[Min(|rest| + 1, |u1.inbox|)..] == u.inbox[Min(|all| + 1, |u.inbox|)..];
        NextPacket(w, u);
      }
    }
  }

  lemma MessagesFirst(w: Setup, p: Packet, rest: seq<Packet>)
    ensures forall mid :: MessagesIn(w, [p] + rest, mid) == MessageIn(w, p, mid) + MessagesIn(w, rest, mid)
    ensures forall mid :: MessageIn(w, p, mid) == [] ==> MessagesIn(w, [p] + rest, mid) == MessagesIn(w, rest, mid)
  {
    hide MessageIn;
    assert ([p] + rest)[1..] == rest;
    forall mid
      ensures [] + MessagesIn(w, rest, mid) == MessagesIn(w, rest, mid)
    {
      Units(MessagesIn(w, rest, mid));
    }
  }

  lemma NextPacket(w: Setup, u: UdpSocket)
    requires u.inbox != []
    ensures var (o, u1) := RecvUdpOn(w, u);
            && (o.Panicked? ==> DrainUdp(w, u).Panicked?)
            && (o.Returned? && o.value.Err? && o.value.kind != WouldBlock ==> DrainUdp(w, u) == DrainUdp(w, u1))
            && (o.Returned? && o.value.Ok? ==>
                  if DrainUdp(w, u1).Panicked? then DrainUdp(w, u).Panicked?
                  else
                    && DrainUdp(w, u) == Returned(DrainUdp(w, u1).value.(got := [o.value.value] + DrainUdp(w, u1).value.got))
                    && forall mid :: OfMid(DrainUdp(w, u).value.got, mid)
                                     == (if o.value.value.mid == mid then [o.value.value.msg] else []) + OfMid(DrainUdp(w, u1).value.got, mid))
  {
    hide RecvUdpOn;
    var (o, u1) := RecvUdpOn(w, u);
    if o.Returned? && o.value.Ok? && DrainUdp(w, u1).Returned? {
      LetterFirst(o.value.value, DrainUdp(w, u1).value.got);
    }
  }

  lemma LetterFirst(l: Letter, got: seq<Letter>)
    ensures forall mid :: OfMid([l] + got, mid) == (if l.mid == mid then [l.msg] else []) + OfMid(got, mid)
  {
    assert ([l] + got)[1..] == got;
  }

  /** What `recv_msgs` does for a client that stays connected: each buffer keeps what it
      held; behind it come the stream's messages of that id, in order; and behind those,
      in order, the messages of the datagrams that are there, each with its own content
      and send time. Everything is counted once, and the datagrams are gone. */
  lemma {:induction false} ClientBuffers(w: Setup, st: State)
    requires w.Sound() && |st.msgBuff| == w.parts.MidCount() && st.status.Connected?
    requires RecvMsgs(w, st).Returned? && RecvMsgs(w, st).value.0.status.Connected?
    ensures Drain(w, 0, st.tcp).Returned?
    ensures var (st1, n) := RecvMsgs(w, st).value;
            var got, present := Drain(w, 0, st.tcp).value.got, Present(st.udp.inbox);
            && |st1.msgBuff| == |st.msgBuff|
            && (forall mid :: 0 <= mid < |st.msgBuff| ==>
                  st1.msgBuff[mid] == st.msgBuff[mid] + OfMid(got, mid) + MessagesIn(w, present, mid))
            && n == |got| + CountIn(w, present)
            && |present| <= |st.udp.inbox| && st1.udp == st.udp.(inbox := st.udp.inbox[Min(|present| + 1, |st.udp.inbox|)..])
  {
    var d := Drain(w, 0, st.tcp).value;
    EndsProperly(w, 0, st.tcp);
    DrainsPresent(w, st.udp);
    var st0 := AfterTcp(st, d);
    assert st0.status.Connected? && DrainUdp(w, st.udp).Returned?;
    var u := DrainUdp(w, st.udp).value;
    assert Below(d.got, |st.msgBuff|) && Below(u.got, |st0.msgBuff|);
    hide Drain, DrainUdp, Present, MessagesIn, CountIn, PushAll, OfMid, Below, MsgTableParts.Shaped;
    forall mid | 0 <= mid < |st.msgBuff|
      ensures RecvMsgs(w, st).value.0.msgBuff[mid] == st.msgBuff[mid] + OfMid(d.got, mid) + MessagesIn(w, Present(st.udp.inbox), mid)
    {
      PushAllAppends(st.msgBuff, d.got, mid);
      PushAllAppends(st0.msgBuff, u.got, mid);
    }
  }

  /** The same in terms of frames: with whole frames coming in, the stream's part are the
      messages of the first `k` of them, and as many are counted. */
  lemma {:induction false} ClientGets(w: Setup, st: State, fs: seq<Frame>) returns (k: nat)
    requires w.Sound() && |st.msgBuff| == w.parts.MidCount() && st.status.Connected? && Ready(w.TcpSize(), st.tcp, fs)
    requires RecvMsgs(w, st).Returned? && RecvMsgs(w, st).value.0.status.Connected?
    ensures k <= |fs| && forall i :: 0 <= i < k ==> EndToEnd.Plain(w, fs[i])
    ensures Arrived(st.tcp) ==> k == |fs|
    ensures var (st1, n) := RecvMsgs(w, st).value;
            && |st1.msgBuff| == |st.msgBuff|
            && (forall mid :: 0 <= mid < |st.msgBuff| ==>
                  st1.msgBuff[mid] == st.msgBuff[mid] + EndToEnd.Messages(w, 0, fs[..k], mid) + MessagesIn(w, Present(st.udp.inbox), mid))
            && n == k + CountIn(w, Present(st.udp.inbox))
  {
    var server: CId := 0;
    hide *;
    ClientBuffers(w, st);
    k := EndToEnd.DrainTakes(w, server, st.tcp, fs);
    NothingEnded(w, st);
    AllPlain(w, Drain(w, server, st.tcp).value, fs, k);
  }

  lemma {:induction false} AllPlain(w: Setup, d: Drained, fs: seq<Frame>, k: nat)
    requires k <= |fs| && EndToEnd.Took(w, 0, d, fs[..k]) && d.end.None?
    ensures forall i :: 0 <= i < k ==> EndToEnd.Plain(w, fs[i])
    ensures forall mid :: OfMid(d.got, mid) == EndToEnd.Messages(w, 0, fs[..k], mid)
  {
    hide EndToEnd.Plain, EndToEnd.Messages, EndToEnd.Endings, EndToEnd.Sealed;
    EndToEnd.ByFramesOne(Connected);
    EndToEnd.SealedPlain(w, fs[..k]);
    assert forall i :: 0 <= i < k ==> fs[..k][i] == fs[i];
  }

  lemma {:induction false} NothingEnded(w: Setup, st: State)
    requires w.Sound() && |st.msgBuff| == w.parts.MidCount() && st.status.Connected?
    requires RecvMsgs(w, st).Returned? && RecvMsgs(w, st).value.0.status.Connected?
    ensures Drain(w, 0, st.tcp).Returned? && Drain(w, 0, st.tcp).value.end.None?
  {
    EndsProperly(w, 0, st.tcp);
  }

  /** A client's `recv_msgs` panics exactly when it is connected and the first frame on its
      stream that is no ordinary message has the one panicking id, or nothing ends its
      connection and one of the datagrams that are there is of the panicking kind. */
  lemma {:induction false} ClientPanicsExactly(w: Setup, st: State)
    requires w.Sound() && |st.msgBuff| == w.parts.MidCount()
    ensures RecvMsgs(w, st).Panicked? <==>
            && st.status.Connected?
            && ((exists j: nat :: Panics.PanicsAt(w, st.tcp, j))
                || (Drain(w, 0, st.tcp).Returned? && Drain(w, 0, st.tcp).value.end.None?
                    && AnyBad(w, Present(st.udp.inbox))))
  {
    EndsProperly(w, 0, st.tcp);
    Panics.DrainPanicsExactly(w, 0, st.tcp);
    DrainsPresent(w, st.udp);
    hide Drain, DrainUdp, Present, Panics.PanicsAt, Panics.BadPacket, MsgTableParts.Shaped;
  }
}
