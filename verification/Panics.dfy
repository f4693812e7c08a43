/** The inputs on which the server's `recv_msgs` panics, and no others. */
module Panics {
  import opened Prelude
  import opened Header
  import opened Net
  import opened MessageTable
  import opened Tcp
  import opened Udp
  import opened Inbound
  import opened ServerModel
  import opened Framing
  import opened Conservation
  import opened EndToEnd

  /** The next `j + 1` calls of `recv` each return a frame, the first `j` of them plain,
      and the last one with the one id that is let through but has no deserializer. */
  ghost predicate PanicsAt(w: Setup, s: Socket, j: nat) {
    var fs := Pump(w.TcpSize(), s, j + 1).0;
    |fs| == j + 1 && fs[j].mid == w.parts.MidCount() && forall i :: 0 <= i < j ==> Plain(w, fs[i])
  }

  lemma {:induction false} PumpAtMost(size: nat, s: Socket, n: nat)
    ensures |Pump(size, s, n).0| <= n
    decreases n
  {
    if n > 0 {
      PumpAtMost(size, RecvOn(size, s).1, n - 1);
    }
  }

  lemma PanicsNow(w: Setup, s: Socket, j: nat)
    requires w.Sound()
    ensures var (r, t) := RecvOn(w.TcpSize(), s);
            PanicsAt(w, s, j) <==>
            && r.Ok? && (if j == 0 then r.value.mid == w.parts.MidCount() else Plain(w, r.value) && PanicsAt(w, t, j - 1))
  {
    var size := w.TcpSize();
    var (r, t) := RecvOn(size, s);
    PumpAtMost(size, t, j);
    hide RecvOn, Plain, MsgTableParts.Shaped;
    var rest := Pump(size, t, j).0;
    var fs := FrameIn(r) + rest;
    assert Pump(size, s, j + 1).0 == fs;
    if r.Ok? && |rest| == j {
      assert fs[0] == r.value && forall i :: 1 <= i <= j ==> fs[i] == rest[i - 1];
      if PanicsAt(w, s, j) && j > 0 {
        assert Plain(w, fs[0]);
        forall i | 0 <= i < j - 1
          ensures Plain(w, rest[i])
        {
          assert Plain(w, fs[i + 1]);
        }
      }
    }
  }

  /** Reading one connection dry panics exactly when the first frame that is not plain
      has the id that equals the number of ids. */
  lemma {:induction false} DrainPanicsExactly(w: Setup, cid: CId, s: Socket)
    requires w.Sound()
    ensures Drain(w, cid, s).Panicked? <==> exists j: nat :: PanicsAt(w, s, j)
    decreases |Upcoming(s)|
  {
    var (r, t) := RecvOn(w.TcpSize(), s);
    if r.Err? {
      forall j: nat
        ensures !PanicsAt(w, s, j)
      {
        PanicsNow(w, s, j);
      }
    } else {
      var f := r.value;
      DecodePanicsExactly(w, f.mid, f.payload);
      hide RecvOn, PanicsAt, MsgTableParts.Shaped;
      forall j: nat
        ensures PanicsAt(w, s, j) <==> if j == 0 then f.mid == w.parts.MidCount() else Plain(w, f) && PanicsAt(w, t, j - 1)
      {
        PanicsNow(w, s, j);
      }
      ReservedBelow(w);
      if Plain(w, f) {
        DrainPanicsExactly(w, cid, t);
        if j: nat :| PanicsAt(w, t, j) {
          assert PanicsAt(w, s, j + 1);
        }
      } else if f.mid == w.parts.MidCount() {
        assert PanicsAt(w, s, 0);
      }
    }
  }

  lemma ReservedBelow(w: Setup)
    requires w.Sound()
    ensures DISCONNECT_TYPE_MID < w.parts.MidCount()
  {
  }

  /** A packet that panics: one to three bytes, or the id that equals the number of ids. */
  predicate BadPacket(w: Setup, p: Packet) {
    p.Datagram? && p.data != [] && (|p.data| < UDP_HEADER_LEN || U16FromBytes(p.data[..2]) == w.parts.MidCount())
  }

  lemma JudgePanicsExactly(w: Setup, cidAddr: map<CId, Addr>, addrCid: map<Addr, CId>, p: Packet)
    requires w.Sound()
    ensures Judge(w, cidAddr, addrCid, p).Panicked? <==> BadPacket(w, p)
  {
    if p.Datagram? && |p.data| >= UDP_HEADER_LEN {
      var b := p.data[..UDP_HEADER_LEN];
      assert b[..2] == p.data[..2];
      var h := UdpHeaderFromBytes(b, p.clock);
      DecodePanicsExactly(w, h.mid, p.data[UDP_HEADER_LEN..Min(|p.data|, w.UdpSize())]);
    }
    hide U16FromBytes, MsgTableParts.Shaped;
  }

  /** Where the usable packets in front end. */
  lemma {:induction false} UsableFront(w: Setup, cidAddr: map<CId, Addr>, addrCid: map<Addr, CId>, inbox: seq<Packet>) returns (n: nat)
    ensures n <= |inbox| && forall k :: 0 <= k < n ==> Good(Judge(w, cidAddr, addrCid, inbox[k]))
    ensures n < |inbox| ==> !Good(Judge(w, cidAddr, addrCid, inbox[n]))
    decreases |inbox|
  {
    hide Judge;
    if inbox == [] || !Good(Judge(w, cidAddr, addrCid, inbox[0])) {
      n := 0;
    } else {
      var k := UsableFront(w, cidAddr, addrCid, inbox[1..]);
      n := k + 1;
      assert forall i :: 0 < i < |inbox| ==> inbox[i] == inbox[1..][i - 1];
    }
  }

  /** The datagrams in front are usable, and the next one panics. */
  ghost predicate UdpPanicsAt(w: Setup, st: State, n: nat) {
    && n < |st.udp.inbox| && BadPacket(w, st.udp.inbox[n])
    && forall k :: 0 <= k < n ==> Good(Judge(w, st.cidAddr, st.addrCid, st.udp.inbox[k]))
  }

  lemma {:induction false} UdpsPanicExactly(w: Setup, st: State)
    requires w.Sound() && |st.msgBuff| == w.parts.MidCount()
    ensures RecvUdps(w, st).Panicked? <==> exists n: nat :: UdpPanicsAt(w, st, n)
  {
    var inbox := st.udp.inbox;
    var m := UsableFront(w, st.cidAddr, st.addrCid, inbox);
    UdpTakes(w, st.cidAddr, st.addrCid, st.udp, m);
    hide Judge, DrainUdp, MsgTableParts.Shaped, BadPacket;
    forall k | 0 <= k < |inbox|
      ensures Judge(w, st.cidAddr, st.addrCid, inbox[k]).Panicked? <==> BadPacket(w, inbox[k])
    {
      JudgePanicsExactly(w, st.cidAddr, st.addrCid, inbox[k]);
    }
    if n: nat :| UdpPanicsAt(w, st, n) {
      assert n == m;
    }
    if m < |inbox| && BadPacket(w, inbox[m]) {
      assert UdpPanicsAt(w, st, m);
    }
  }

  /** `recv_msgs` panics exactly when the first frame of some live connection that is not
      plain, or the first datagram that is not usable, is of the panicking kind. */
  lemma {:induction false} RecvPanicsExactly(w: Setup, st: State, order: seq<CId>)
    requires w.Sound() && |st.msgBuff| == w.parts.MidCount() && Receiving.Visits(order, st)
    ensures RecvMsgs(w, st, order).Panicked? <==>
            (exists c, j: nat :: c in st.tcp && PanicsAt(w, st.tcp[c], j)) || exists n: nat :: UdpPanicsAt(w, st, n)
  {
    Receiving.RecvTcpsGrow(w, st, order);
    RecvTcpsKeeps(w, st, order);
    TcpsPanic(w, st, order);
    hide RecvTcps, RecvUdps, PanicsAt, Receiving.DrainOf, Setup.Sound, NoDup;
    var a := RecvTcps(w, st, order);
    if a.Returned? {
      UdpsPanicExactly(w, a.value.0);
      forall n: nat
        ensures UdpPanicsAt(w, a.value.0, n) <==> UdpPanicsAt(w, st, n)
      {
      }
    }
  }

  lemma TcpsPanic(w: Setup, st: State, order: seq<CId>)
    requires w.Sound() && Receiving.Visits(order, st)
    ensures (exists c :: c in order && Receiving.DrainOf(w, st, c).Panicked?) <==> exists c, j: nat :: c in st.tcp && PanicsAt(w, st.tcp[c], j)
  {
    hide Drain, PanicsAt, Setup.Sound, NoDup;
    forall c | c in st.tcp
      ensures Receiving.DrainOf(w, st, c).Panicked? <==> exists j: nat :: PanicsAt(w, st.tcp[c], j)
    {
      DrainPanicsExactly(w, c, st.tcp[c]);
    }
  }
}
