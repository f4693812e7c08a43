/** The four-byte headers in front of every payload (`src/header.rs`). */
module Header {
  import opened Prelude
  import Time

  const TCP_HEADER_LEN: nat := 4
  const UDP_HEADER_LEN: nat := 4

  /** `x as u16`: the cast keeps the low sixteen bits. */
  function AsU16(x: nat): (r: nat)
    ensures r < U16 && (r == x <==> x < U16)
  {
    x % U16
  }

  function U16ToBytes(x: nat): (b: seq<byte>)
    requires x < U16
    ensures |b| == 2 && U16FromBytes(b) == x
  {
    [x / 256, x % 256]
  }

  function U16FromBytes(b: seq<byte>): (x: nat)
    requires |b| == 2
    ensures x < U16
  {
    b[0] as int * 256 + b[1]
  }

  datatype TcpHeader = TcpHeader(mid: nat, len: nat) {
    function ToBytes(): (b: seq<byte>)
      ensures |b| == TCP_HEADER_LEN
    {
      U16ToBytes(AsU16(mid)) + U16ToBytes(AsU16(len))
    }
  }

  function TcpHeaderFromBytes(b: seq<byte>): (h: TcpHeader)
    requires |b| == TCP_HEADER_LEN
    ensures h.mid < U16 && h.len < U16
  {
    TcpHeader(U16FromBytes(b[..2]), U16FromBytes(b[2..]))
  }

  /** What a peer reads is the header modulo 2^16, so a header survives the
      wire exactly when both of its fields fit sixteen bits. */
  lemma TcpHeaderRoundTrip(h: TcpHeader)
    ensures TcpHeaderFromBytes(h.ToBytes()) == TcpHeader(h.mid % U16, h.len % U16)
    ensures TcpHeaderFromBytes(h.ToBytes()) == h <==> h.mid < U16 && h.len < U16
  {
    var b := h.ToBytes();
    assert b[..2] == U16ToBytes(AsU16(h.mid));
    assert b[2..] == U16ToBytes(AsU16(h.len));
  }

  /** Every four bytes are the header of something: reading then writing is the identity. */
  lemma TcpHeaderOnto(b: seq<byte>)
    requires |b| == TCP_HEADER_LEN
    ensures TcpHeaderFromBytes(b).ToBytes() == b
  {
    assert b == b[..2] + b[2..];
    forall c: seq<byte> | |c| == 2
      ensures U16ToBytes(U16FromBytes(c)) == c
    {
      assert (c[0] as int * 256 + c[1]) / 256 == c[0];
      assert (c[0] as int * 256 + c[1]) % 256 == c[1];
    }
  }

  datatype UdpHeader = UdpHeader(mid: nat, time: nat) {
    function ToBytes(): (b: seq<byte>)
      ensures |b| == UDP_HEADER_LEN
    {
      U16ToBytes(AsU16(mid)) + U16ToBytes(AsU16(time))
    }
  }

  /** On the wire both headers are two big-endian halves: the id, then the length of the
      payload or the low half of the send time. */
  lemma BigEndian(mid: nat, second: nat)
    ensures var b := [mid / 256 % 256, mid % 256, second / 256 % 256, second % 256];
            TcpHeader(mid, second).ToBytes() == b == UdpHeader(mid, second).ToBytes()
  {
    forall x: nat
      ensures x % U16 / 256 == x / 256 % 256 && x % U16 % 256 == x % 256
    {
      assert x == x / U16 * U16 + x % U16;
      var y := x % U16;
      assert y == y / 256 * 256 + y % 256 && y / 256 < 256;
      var q := x / U16;
      assert x == (q * 256 + y / 256) * 256 + y % 256;
      assert x / 256 == q * 256 + y / 256;
    }
  }

  /** Reading a UDP header also rebuilds the send time from the reader's clock. */
  function UdpHeaderFromBytes(b: seq<byte>, now: nat): UdpHeader
    requires |b| == UDP_HEADER_LEN && now < U32
  {
    UdpHeader(U16FromBytes(b[..2]), Time.Reconstruct(now, U16FromBytes(b[2..])))
  }

  /** The message id comes back when it fits sixteen bits, and the send time
      exactly when the datagram is read less than 65536 ms later (modulo 2^32). */
  lemma {:induction false} UdpHeaderRoundTrip(h: UdpHeader, now: nat)
    requires h.time < U32 && now < U32
    ensures UdpHeaderFromBytes(h.ToBytes(), now).mid == h.mid <==> h.mid < U16
    ensures UdpHeaderFromBytes(h.ToBytes(), now).time == h.time <==> Time.Since(now, h.time) < U16
  {
    var b := h.ToBytes();
    assert b[..2] == U16ToBytes(AsU16(h.mid));
    assert b[2..] == U16ToBytes(AsU16(h.time));
    Time.ReconstructExact(now, h.time);
  }
}
