/** The UDP side (`src/udp.rs`): one message per datagram, stamped with its send time. */
module Udp {
  import opened Prelude
  import opened Header
  import opened Net
  import Tcp

  type Stamp = t: nat | t < U32

  /** What the next receive call on the socket reports: a datagram read when the
      clock shows `clock`, or an error. */
  datatype Packet =
    | Datagram(from: Addr, data: seq<byte>, clock: Stamp)
    | Fault(kind: ErrorKind)

  /** A nonblocking `UdpSocket` and the clock its messages are stamped with. */
  datatype UdpSocket = UdpSocket(
    inbox: seq<Packet>,
    sent: seq<(Addr, seq<byte>)>,
    peer: Addr,
    clock: Stamp,
    sendFault: Option<ErrorKind>)

  datatype Received = Received(from: Addr, mid: MId, time: Stamp, payload: seq<byte>)

  function DatagramBytes(mid: MId, payload: seq<byte>, clock: Stamp): (b: seq<byte>)
    ensures |b| == UDP_HEADER_LEN + |payload|
  {
    UdpHeader(mid, clock).ToBytes() + payload
  }

  /** What `send_to` does to the socket of a connection with a buffer of `size` bytes. */
  function SendToOn(size: nat, u: UdpSocket, addr: Addr, mid: MId, payload: seq<byte>): (Io<()>, UdpSocket) {
    if |payload| + UDP_HEADER_LEN > size then (Err(InvalidData), u)
    else if u.sendFault.Some? then (Err(u.sendFault.value), u)
    else (Ok(()), u.(sent := u.sent + [(addr, DatagramBytes(mid, payload, u.clock))]))
  }

  /** How one packet reads through a buffer of `size` bytes: what does not fit is
      cut off, and one to three bytes end in a slice whose start is past its end. */
  function Read(size: nat, p: Packet): Outcome<Io<Received>>
    requires size >= UDP_HEADER_LEN
  {
    match p
    case Fault(kind) => Returned(Err(kind))
    case Datagram(from, data, clock) =>
      var n := Min(|data|, size);
      if n == 0 then Returned(Err(NotConnected))
      else if n < UDP_HEADER_LEN then Panicked
      else
        var h := UdpHeaderFromBytes(data[..UDP_HEADER_LEN], clock);
        Returned(Ok(Received(from, h.mid, h.time, data[UDP_HEADER_LEN..n])))
  }

  /** What `recv_from` reports and leaves: nothing in the inbox would block. */
  function RecvFromOn(size: nat, u: UdpSocket): (Outcome<Io<Received>>, UdpSocket)
    requires size >= UDP_HEADER_LEN
  {
    if u.inbox == [] then (Returned(Err(WouldBlock)), u)
    else (Read(size, u.inbox[0]), u.(inbox := u.inbox[1..]))
  }

  class UdpCon {
    /** Used for receiving only. */
    const buff: array<byte>
    var sock: UdpSocket

    ghost predicate Valid() {
      buff.Length >= UDP_HEADER_LEN
    }

    constructor (s: UdpSocket, maxMsgSize: nat)
      ensures Valid() && sock == s && buff.Length == maxMsgSize + UDP_HEADER_LEN && fresh(buff)
    {
      buff := new byte[maxMsgSize + UDP_HEADER_LEN];
      sock := s;
    }

    method SendShared(mid: MId, payload: seq<byte>) returns (r: Io<seq<byte>>)
      ensures r == if |payload| + UDP_HEADER_LEN > buff.Length then Err(InvalidData)
                   else Ok(DatagramBytes(mid, payload, sock.clock))
    {
      var totalLen := |payload| + UDP_HEADER_LEN;
      var b := new byte[totalLen];
      if totalLen > buff.Length {
        return Err(InvalidData);
      }
      var hBytes := UdpHeader(mid, sock.clock).ToBytes();
      Tcp.Fill(b, 0, hBytes);
      Tcp.Fill(b, UDP_HEADER_LEN, payload);
      assert b[..] == b[..UDP_HEADER_LEN] + b[UDP_HEADER_LEN..];
      assert b[..UDP_HEADER_LEN] == hBytes && b[UDP_HEADER_LEN..] == b[UDP_HEADER_LEN..UDP_HEADER_LEN + |payload|];
      r := Ok(b[..]);
    }

    method SendTo(addr: Addr, mid: MId, payload: seq<byte>) returns (r: Io<()>)
      modifies this`sock
      ensures (r, sock) == SendToOn(buff.Length, old(sock), addr, mid, payload)
    {
      var b := SendShared(mid, payload);
      if b.Err? {
        return Err(b.kind);
      }
      if sock.sendFault.Some? {
        return Err(sock.sendFault.value);
      }
      sock := sock.(sent := sock.sent + [(addr, b.value)]);
      r := Ok(());
    }

    /** On a connected socket the destination is the peer. */
    method Send(mid: MId, payload: seq<byte>) returns (r: Io<()>)
      modifies this`sock
      ensures (r, sock) == SendToOn(buff.Length, old(sock), old(sock).peer, mid, payload)
    {
      r := SendTo(sock.peer, mid, payload);
    }

    /** The header and payload of the `n` bytes just received into the buffer. */
    method RecvShared(from: Addr, n: nat, clock: Stamp) returns (r: Outcome<Io<Received>>)
      requires Valid() && n <= buff.Length
      ensures r == Read(buff.Length, Datagram(from, buff[..n], clock))
    {
      if n == 0 {
        return Returned(Err(NotConnected));
      }
      var header := UdpHeaderFromBytes(buff[..UDP_HEADER_LEN], clock);
      if n < UDP_HEADER_LEN {
        return Panicked;
      }
      assert buff[..n][..UDP_HEADER_LEN] == buff[..UDP_HEADER_LEN];
      assert buff[..n][UDP_HEADER_LEN..n] == buff[UDP_HEADER_LEN..n];
      r := Returned(Ok(Received(from, header.mid, header.time, buff[UDP_HEADER_LEN..n])));
    }

    method RecvFrom() returns (r: Outcome<Io<Received>>)
      requires Valid()
      modifies this`sock, buff
      ensures (r, sock) == RecvFromOn(buff.Length, old(sock))
    {
      if sock.inbox == [] {
        return Returned(Err(WouldBlock));
      }
      var p := sock.inbox[0];
      sock := sock.(inbox := sock.inbox[1..]);
      if p.Fault? {
        return Returned(Err(p.kind));
      }
      var n := Min(|p.data|, buff.Length);
      Tcp.Fill(buff, 0, p.data[..n]);
      assert buff[..n] == p.data[..n];
      r := RecvShared(p.from, n, p.clock);
      ReadsCut(buff.Length, p);
    }
  }

  /** Cutting a datagram to the buffer before reading it changes nothing. */
  lemma ReadsCut(size: nat, p: Packet)
    requires size >= UDP_HEADER_LEN && p.Datagram?
    ensures Read(size, p.(data := p.data[..Min(|p.data|, size)])) == Read(size, p)
  {
    var cut := p.data[..Min(|p.data|, size)];
    if |cut| >= UDP_HEADER_LEN {
      assert cut[..UDP_HEADER_LEN] == p.data[..UDP_HEADER_LEN];
      assert cut[UDP_HEADER_LEN..|cut|] == p.data[UDP_HEADER_LEN..|cut|];
    }
  }

  /** A datagram brings its payload whenever it fits the receiver's buffer, its
      message id exactly when that fits sixteen bits, and its send time exactly when
      it is read less than 65536 ms later. What the buffer held before is no part of
      the outcome. */
  lemma DatagramRoundTrip(size: nat, from: Addr, mid: MId, payload: seq<byte>, sent: Stamp, read: Stamp)
    requires |payload| + UDP_HEADER_LEN <= size
    ensures var r := Read(size, Datagram(from, DatagramBytes(mid, payload, sent), read));
            && r.Returned? && r.value.Ok? && r.value.value.from == from && r.value.value.payload == payload
            && (r.value.value.mid == mid <==> mid < U16)
            && (r.value.value.time == sent <==> Time.Since(read, sent) < U16)
  {
    var b := DatagramBytes(mid, payload, sent);
    assert b[..UDP_HEADER_LEN] == UdpHeader(mid, sent).ToBytes();
    assert b[UDP_HEADER_LEN..|b|] == payload;
    UdpHeaderRoundTrip(UdpHeader(mid, sent), read);
  }

  /** What a receive makes of any report: errors are passed on, an empty datagram means that
      the peer is gone, and one with a header yields its sender and as much of what is
      behind the header as fits the buffer. */
  lemma ReadsExactly(size: nat, p: Packet)
    requires size >= UDP_HEADER_LEN
    ensures var r := Read(size, p);
            && (p.Fault? ==> r == Returned(Err(p.kind)))
            && (p.Datagram? && p.data == [] ==> r == Returned(Err(NotConnected)))
            && (r.Returned? && r.value.Ok? <==> p.Datagram? && |p.data| >= UDP_HEADER_LEN)
            && (r.Returned? && r.value.Ok? ==>
                  && r.value.value.from == p.from && r.value.value.mid == U16FromBytes(p.data[..2])
                  && r.value.value.payload == p.data[UDP_HEADER_LEN..Min(|p.data|, size)])
  {
    if p.Datagram? && |p.data| >= UDP_HEADER_LEN {
      assert p.data[..UDP_HEADER_LEN][..2] == p.data[..2];
    }
  }

  /** A receive panics exactly on datagrams of one to three bytes, and nothing
      that `send_to` produces is that short. */
  lemma ReadPanicsExactly(size: nat, p: Packet)
    requires size >= UDP_HEADER_LEN
    ensures Read(size, p).Panicked? <==> p.Datagram? && 0 < |p.data| < UDP_HEADER_LEN
  {
  }
}
