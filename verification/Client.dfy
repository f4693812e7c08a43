/** The client (`src/client.rs`). */
module Client {
  import opened Prelude
  import opened Net
  import opened MessageTable
  import opened Tcp
  import opened Udp
  import opened Inbound
  import M = ClientModel

  class Client {
    const w: Setup
    const tcp: TcpCon
    const udp: UdpCon
    var status: Status
    var msgBuff: Buffers

    ghost predicate Valid()
      reads this
    {
      && w.Sound() && |msgBuff| == w.parts.MidCount()
      && tcp.buff.Length == w.TcpSize() && udp.buff.Length == w.UdpSize()
      && tcp.buff != udp.buff
    }

    ghost function State(): M.State
      reads this, tcp, udp
    {
      M.State(status, msgBuff, tcp.sock, udp.sock)
    }

    lemma Facts()
      requires Valid()
      ensures w.Sound() && |msgBuff| == |State().msgBuff| == |w.parts.deser| == w.parts.MidCount()
      ensures State().tcp == tcp.sock && State().udp == udp.sock
    {
    }

    constructor (w: Setup, s: Socket, u: UdpSocket)
      ensures (w.Sound() ==> Valid()) && this.w == w && State() == M.Fresh(w, s, u)
      ensures fresh(tcp) && fresh(tcp.buff) && fresh(udp) && fresh(udp.buff)
    {
      this.w := w;
      this.tcp := new TcpCon.FromStream(s, w.config.maxMsgSize);
      this.udp := new UdpCon(u, w.config.maxMsgSize);
      this.status := Connected;
      this.msgBuff := seq(w.parts.MidCount(), _ => []);
    }

    /** Connecting blocks: the connection message is sent, and the first message that
        comes back has to be the response. */
    static method NewBlocking(w: Setup, con: Msg, s: Socket, u: UdpSocket) returns (r: Outcome<Io<Msg>>, client: Client)
      requires w.Sound()
      ensures fresh(client) && client.Valid() && client.w == w
      ensures (r, client.State()) == M.NewBlocking(w, con, s, u)
    {
      hide MsgTableParts.Shaped;
      client := new Client(w, s.(nonblocking := false), u);
      var sent := client.Send(con);
      if sent.Err? {
        return Returned(Err(sent.kind)), client;
      }
      var got := client.RecvTcp();
      if got.Panicked? {
        return Panicked, client;
      }
      if got.value.Err? {
        return Returned(Err(got.value.kind)), client;
      }
      if got.value.value.mid != RESPONSE_TYPE_MID {
        return Returned(Err(InvalidData)), client;
      }
      client.tcp.SetNonblocking(true);
      r := Returned(Ok(got.value.value.msg.msg));
    }

    method Send(m: Msg) returns (r: Io<()>)
      requires Valid()
      modifies tcp`sock, udp`sock
      ensures (r, State()) == M.Send(w, old(State()), m)
    {
      if !w.parts.ValidTid(m.tid) {
        return Err(InvalidData);
      }
      var mid := w.parts.tidMap[m.tid];
      var b := w.serde.ser(m);
      if b.None? {
        return Err(InvalidData);
      }
      match w.parts.transports[mid] {
        case TCP => r := tcp.Send(mid, b.value);
        case UDP => r := udp.Send(mid, b.value);
      }
    }

    method Disconnect(m: Msg) returns (r: Outcome<Io<()>>)
      requires Valid()
      modifies this`status, tcp`sock, udp`sock
      ensures Valid()
      ensures match M.Disconnect(w, old(State()), m)
              case Panicked => r.Panicked?
              case Returned(o) => r == Returned(o.0) && State() == o.1
    {
      hide M.Send, MsgTableParts.Shaped;
      if m.tid !in w.parts.tidMap {
        return Panicked;
      }
      if w.parts.tidMap[m.tid] != DISCONNECT_TYPE_MID {
        return Returned(Err(InvalidData));
      }
      var sent := Send(m);
      if sent.Err? {
        return Returned(sent);
      }
      var closed := tcp.Close();
      if closed.Err? {
        return Returned(closed);
      }
      status := Closed;
      r := Returned(closed);
    }

    method RecvTcp() returns (r: Outcome<Io<Letter>>)
      requires Valid()
      modifies tcp`sock, tcp.buff
      ensures var (o, s) := RecvMsgOn(w, 0, old(State()).tcp);
              r == o && State() == old(State()).(tcp := s)
      ensures r.Returned? && r.value.Ok? ==> r.value.value.mid < |w.parts.deser|
    {
      hide MsgTableParts.Shaped;
      var got := tcp.Recv();
      if got.Err? {
        return Returned(Err(got.kind));
      }
      var m :- w.Decode(got.value.mid, got.value.payload);
      if m.Err? {
        return Returned(Err(m.kind));
      }
      r := Returned(Ok(Letter(got.value.mid, ErasedNetMsg(0, None, m.value))));
    }

    method RecvUdp() returns (r: Outcome<Io<Letter>>)
      requires Valid()
      modifies udp`sock, udp.buff
      ensures var (o, u) := M.RecvUdpOn(w, old(State()).udp);
              r == o && State() == old(State()).(udp := u)
      ensures r.Returned? && r.value.Ok? ==> r.value.value.mid < |w.parts.deser|
    {
      hide MsgTableParts.Shaped;
      var got :- udp.RecvFrom();
      if got.Err? {
        return Returned(Err(got.kind));
      }
      var m :- w.Decode(got.value.mid, got.value.payload);
      if m.Err? {
        return Returned(Err(m.kind));
      }
      r := Returned(Ok(Letter(got.value.mid, ErasedNetMsg(0, Some(got.value.time), m.value))));
    }

    /** The first loop of `recv_msgs`. */
    method RecvTcps() returns (r: Outcome<nat>)
      requires Valid()
      modifies this`status, this`msgBuff, tcp`sock, tcp.buff
      ensures Valid()
      ensures match M.RecvTcps(w, old(State()))
              case Panicked => r.Panicked?
              case Returned(o) => r == Returned(o.1) && State() == o.0
    {
      hide Drain, RecvMsgOn, Push, PushAll, MsgTableParts.Shaped, After;
      Facts();
      ghost var st := State();
      ghost var goal := Drain(w, 0, st.tcp);
      ghost var got: seq<Letter> := [];
      var i := 0;
      AfterNothing(goal);
      PushNothing(msgBuff);
      BelowMore([], Letter(0, ErasedNetMsg(0, None, Msg(0, []))), |msgBuff|);
      while status.Connected?
        invariant Valid() && |msgBuff| == |st.msgBuff|
        invariant !st.status.Connected? ==> i == 0 && State() == st
        invariant st.status.Connected? && status.Connected? ==>
                    && Below(got, |msgBuff|) && i == |got| && goal == After(got, Drain(w, 0, tcp.sock))
                    && State() == M.State(Connected, PushAll(st.msgBuff, got), tcp.sock, st.udp)
        invariant st.status.Connected? && !status.Connected? ==>
                    goal.Returned? && i == goal.value.Count() && State() == M.AfterTcp(st, goal.value)
        decreases status.Connected?, |Upcoming(tcp.sock)|
      {
        DrainStep(w, 0, tcp.sock, got);
        MsgMoves(tcp.sock);
        var o := RecvTcp();
        if o.Panicked? {
          return Panicked;
        }
        match o.value {
          case Err(kind) =>
            if kind == WouldBlock {
              break;
            }
            status := Dropped(kind);
          case Ok(l) =>
            i := i + 1;
            if l.mid == DISCONNECT_TYPE_MID {
              status := Disconnected(l.msg.msg);
            } else {
              PushAllLast(st.msgBuff, got, l);
              msgBuff := Push(msgBuff, l);
              got := got + [l];
            }
        }
      }
      r := Returned(i);
    }

    lemma MsgMoves(s: Socket)
      ensures var (o, t) := RecvMsgOn(w, 0, s); o.Returned? && o.value.Ok? ==> |Upcoming(t)| < |Upcoming(s)|
    {
    }

    /** The second loop of `recv_msgs`. */
    method RecvUdps() returns (r: Outcome<nat>)
      requires Valid()
      modifies this`msgBuff, udp`sock, udp.buff
      ensures Valid()
      ensures match M.RecvUdps(w, old(State()))
              case Panicked => r.Panicked?
              case Returned(o) => r == Returned(o.1) && State() == o.0
    {
      hide M.DrainUdp, M.RecvUdpOn, Push, PushAll, MsgTableParts.Shaped, M.AfterUdp;
      Facts();
      ghost var st := State();
      ghost var goal := M.DrainUdp(w, st.udp);
      ghost var got: seq<Letter> := [];
      var i := 0;
      if !status.Connected? {
        return Returned(0);
      }
      M.DrainUdpStep(w, udp.sock, got);
      PushNothing(msgBuff);
      while true
        invariant Valid() && |msgBuff| == |st.msgBuff| && Below(got, |msgBuff|) && i == |got|
        invariant goal == M.AfterUdp(got, M.DrainUdp(w, udp.sock))
        invariant State() == st.(udp := udp.sock, msgBuff := PushAll(st.msgBuff, got))
        decreases |udp.sock.inbox|
      {
        M.DrainUdpStep(w, udp.sock, got);
        var o := RecvUdp();
        if o.Panicked? {
          return Panicked;
        }
        match o.value {
          case Err(kind) =>
            if kind == WouldBlock {
              return Returned(i);
            }
          case Ok(l) =>
            i := i + 1;
            PushAllLast(st.msgBuff, got, l);
            msgBuff := Push(msgBuff, l);
            got := got + [l];
        }
      }
    }

    method RecvMsgs() returns (r: Outcome<nat>)
      requires Valid()
      modifies this`status, this`msgBuff, tcp`sock, tcp.buff, udp`sock, udp.buff
      ensures Valid()
      ensures match M.RecvMsgs(w, old(State()))
              case Panicked => r.Panicked?
              case Returned(o) => r == Returned(o.1) && State() == o.0
    {
      hide M.RecvTcps, M.RecvUdps, MsgTableParts.Shaped;
      var a :- RecvTcps();
      var b :- RecvUdps();
      r := Returned(a + b);
    }

    method ClearMsgs()
      requires Valid()
      modifies this`msgBuff
      ensures Valid() && State() == M.ClearMsgs(old(State()))
    {
      var i := 0;
      while i < |msgBuff|
        invariant 0 <= i <= |msgBuff| == |old(msgBuff)|
        invariant forall k :: 0 <= k < i ==> msgBuff[k] == []
      {
        msgBuff := msgBuff[i := []];
        i := i + 1;
      }
      assert msgBuff == seq(|old(msgBuff)|, _ => []);
    }
  }
}
