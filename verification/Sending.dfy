/** Whom `broadcast` and `send_spec` write to. */
module Sending {
  import opened Prelude
  import opened Net
  import opened Tcp
  import opened Udp
  import opened Inbound
  import opened ServerModel
  import T = MessageTable
  import Receiving
  import C = ClientModel

  /** The ids a specification selects are visited once each and in the order of the map. */
  lemma {:induction false} MatchingIs(spec: CIdSpec, cids: seq<CId>)
    requires NoDup(cids)
    ensures NoDup(Matching(spec, cids))
    ensures forall c :: c in Matching(spec, cids) <==> c in cids && spec.Matches(c)
  {
    if cids != [] {
      NoDupTail(cids);
      HeadTail(cids);
      MatchingIs(spec, cids[1..]);
      var rest, all := Matching(spec, cids[1..]), Matching(spec, cids);
      var head := if spec.Matches(cids[0]) then [cids[0]] else [];
      assert all == head + rest;
      assert forall c :: c in all <==> c in head || c in rest;
      assert forall c :: c in cids <==> c == cids[0] || c in cids[1..];
      forall i, j | 0 <= i < j < |all|
        ensures all[i] != all[j]
      {
        if head != [] && i == 0 {
          assert all[j] == rest[j - 1] && rest[j - 1] in rest;
        } else if head != [] {
          assert all[i] == rest[i - 1] && all[j] == rest[j - 1];
        }
      }
    }
  }

  // ------------------------------------------------------- one send, by its entry

  /** `send_to` goes the way of the entry the type is registered with. Over TCP it adds
      one frame with the entry's id to the stream of `cid` and nothing anywhere else;
      over UDP it sends one datagram with that id to the address of `cid`, and no stream
      changes. When it succeeds, in both cases. */
  lemma {:induction false} SendsByEntry(w: Setup, st: State, cid: CId, m: Msg)
    requires w.Sound() && m.tid in w.parts.tidMap && w.serde.ser(m).Some?
    ensures var (r, st1) := SendTo(w, st, cid, m);
            var f := Frame(w.parts.tidMap[m.tid], w.serde.ser(m).value);
            match w.parts.transports[w.parts.tidMap[m.tid]]
            case TCP =>
              && st1 == st.(tcp := st1.tcp) && (forall c :: c in st1.tcp <==> c in st.tcp)
              && (forall c :: c in st.tcp && c != cid ==> st1.tcp[c] == st.tcp[c])
              && (r.Ok? <==> cid in st.tcp && !st.tcp[cid].shut && |Encode(f)| <= Min(w.TcpSize(), st.tcp[cid].room))
              && (r.Ok? ==> st1.tcp[cid] == st.tcp[cid].(out := st.tcp[cid].out + Encode(f), room := st.tcp[cid].room - |Encode(f)|))
            case UDP =>
              && (r.Ok? <==> cid in st.cidAddr && |f.payload| <= w.config.maxMsgSize && st.udp.sendFault.None?)
              && (r.Ok? ==> st1 == st.(udp := st.udp.(sent := st.udp.sent + [(st.cidAddr[cid], DatagramBytes(f.mid, f.payload, st.udp.clock))])))
              && (r.Err? ==> st1 == st)
  {
    hide Setup.Sound, Encode, DatagramBytes;
    if cid in st.tcp {
      FrameLast(w.TcpSize(), st.tcp[cid], Frame(w.parts.tidMap[m.tid], w.serde.ser(m).value));
    }
  }

  /** Nothing is sent of a type that is not registered or a message that does not serialize. */
  lemma SendsNothing(w: Setup, st: State, cid: CId, m: Msg)
    requires w.Sound() && (m.tid !in w.parts.tidMap || w.serde.ser(m).None?)
    ensures SendTo(w, st, cid, m) == (Err(InvalidData), st)
  {
  }

  /** From the call of `register` to the wire: with parts built from any history of calls,
      the message of a type that was registered over UDP is sent as one datagram and
      touches no stream, and that of a type registered over TCP as one frame behind
      the others and is no datagram, by the server and by the client. */
  lemma {:induction false} SentAsRegistered(w: Setup, st: State, cid: CId, cs: C.State, m: Msg, transport: Transport,
                                           script: T.Script, id: string, c: TypeId, r: TypeId, d: TypeId)
    requires T.BuildAccepts(T.TableOf(script), c, r, d) && w.parts == T.Built(script, c, r, d)
    requires T.Registers(script, m.tid, transport, id) && w.serde.ser(m).Some?
    ensures w.Sound() && w.Over(m, transport) && w.FrameOf(m).mid > T.DISCONNECT_TYPE_MID
    ensures var ((o, st1), (p, cs1)) := (SendTo(w, st, cid, m), C.Send(w, cs, m));
            var f := w.FrameOf(m);
            if transport == UDP then
              && st1.tcp == st.tcp && cs1.tcp == cs.tcp
              && (o.Ok? ==> cid in st.cidAddr && st1.udp.sent == st.udp.sent + [(st.cidAddr[cid], DatagramBytes(f.mid, f.payload, st.udp.clock))])
              && (p.Ok? ==> cs1.udp.sent == cs.udp.sent + [(cs.udp.peer, DatagramBytes(f.mid, f.payload, cs.udp.clock))])
            else
              && st1.udp == st.udp && cs1.udp == cs.udp
              && (o.Ok? ==> cid in st.tcp && cid in st1.tcp && st1.tcp[cid].out == st.tcp[cid].out + Encode(f))
              && (p.Ok? ==> cs1.tcp.out == cs.tcp.out + Encode(f))
  {
    T.BuiltAsRegistered(script, c, r, d);
    T.SortKeepsUnique(T.TableOf(script));
    T.BuildShaped(T.Entries(T.SortById(T.TableOf(script))), c, r, d);
    assert T.Routes(w.parts, m.tid, transport);
    hide T.Built, T.Registers, T.BuildAccepts, T.TableOf, Setup.Sound, Encode, DatagramBytes, SendTo, C.Send;
    SendsByEntry(w, st, cid, m);
    C.SendsByEntry(w, cs, m);
  }

  // ------------------------------------------------------------------------- TCP

  /** Each of `cids` got `f` and no other stream changed. */
  ghost predicate Wrote(w: Setup, st: State, st1: State, cids: seq<CId>, f: Frame)
    requires forall c :: c in cids ==> c in st.tcp
  {
    && st1 == st.(tcp := st1.tcp)
    && (forall c :: c in st1.tcp <==> c in st.tcp)
    && forall c :: c in st.tcp ==> st1.tcp[c] == if c in cids then SendOn(w.TcpSize(), st.tcp[c], f).1 else st.tcp[c]
  }

  /** Sending over TCP to different live ids reaches the first `n` of them, and all of
      them exactly when it succeeds. Otherwise it ends with the error of the next one:
      each stream up to that one got the frame once (the last one as much of it as it
      took), and no stream behind it, nor any other, is touched. */
  lemma {:induction false} TcpReaches(w: Setup, st: State, cids: seq<CId>, m: Msg) returns (n: nat)
    requires w.Sound() && NoDup(cids) && forall c :: c in cids ==> c in st.tcp
    requires w.Over(m, TCP)
    ensures var (r, st1) := SendEach(w, st, cids, m);
            && n <= |cids| && (r.Ok? <==> n == |cids|)
            && (forall i :: 0 <= i < n ==> SendOn(w.TcpSize(), st.tcp[cids[i]], w.FrameOf(m)).0.Ok?)
            && (n < |cids| ==> SendOn(w.TcpSize(), st.tcp[cids[n]], w.FrameOf(m)).0 == r)
            && (forall c :: c in cids[..Min(n + 1, |cids|)] ==> c in st.tcp)
            && Wrote(w, st, st1, cids[..Min(n + 1, |cids|)], w.FrameOf(m))
    decreases |cids|
  {
    hide SendOn, Setup.Sound, Setup.Route, Setup.FrameOf, Wrote;
    n := 0;
    var f := w.FrameOf(m);
    if cids == [] {
      WroteNothing(w, st, f);
    } else {
      RouteIs(w, m, TCP);
      var (r, st1) := SendTo(w, st, cids[0], m);
      assert (r, st1) == SendTcp(w, st, cids[0], f.mid, f.payload);
      NoDupTail(cids);
      HeadTail(cids);
      assert forall c :: c in cids <==> c == cids[0] || c in cids[1..];
      hide SendTo, NoDup, Setup.Over;
      if r.Ok? {
        var k := TcpReaches(w, st1, cids[1..], m);
        n := k + 1;
        var done := cids[1..][..Min(k + 1, |cids| - 1)];
        assert forall c :: c in done ==> c in cids[1..];
        WroteFirst(w, st, st1, cids[0], done, SendEach(w, st1, cids[1..], m).1, f);
        assert cids[..Min(n + 1, |cids|)] == [cids[0]] + done;
      } else {
        WroteNothing(w, st1, f);
        WroteFirst(w, st, st1, cids[0], [], st1, f);
        assert cids[..1] == [cids[0]] + [];
      }
    }
  }

  lemma WroteNothing(w: Setup, st: State, f: Frame)
    ensures Wrote(w, st, st, [], f)
  {
  }

  lemma {:induction false} WroteFirst(w: Setup, st: State, st1: State, cid: CId, rest: seq<CId>, st2: State, f: Frame)
    requires cid in st.tcp && st1 == st.(tcp := st.tcp[cid := SendOn(w.TcpSize(), st.tcp[cid], f).1])
    requires cid !in rest && (forall c :: c in rest ==> c in st.tcp) && Wrote(w, st1, st2, rest, f)
    ensures forall c :: c in [cid] + rest ==> c in st.tcp
    ensures Wrote(w, st, st2, [cid] + rest, f)
  {
    hide SendOn;
    assert forall c :: c in [cid] + rest <==> c == cid || c in rest;
  }

  /** What a successful write adds: the bytes of the frame, after everything sent before. */
  lemma FrameLast(size: nat, s: Socket, f: Frame)
    ensures SendOn(size, s, f).0.Ok? <==> !s.shut && |Encode(f)| <= size && |Encode(f)| <= s.room
    ensures SendOn(size, s, f).0.Ok? ==> SendOn(size, s, f).1 == s.(out := s.out + Encode(f), room := s.room - |Encode(f)|)
    ensures |Encode(f)| > size ==> SendOn(size, s, f) == (Err(InvalidData), s)
  {
  }

  // ------------------------------------------------------------------------- UDP

  /** One datagram for each of `cids`. */
  function Datagrams(st: State, cids: seq<CId>, bytes: seq<byte>): seq<(Addr, seq<byte>)>
    requires forall c :: c in cids ==> c in st.cidAddr
  {
    if cids == [] then [] else [(st.cidAddr[cids[0]], bytes)] + Datagrams(st, cids[1..], bytes)
  }

  lemma {:induction false} UdpReaches(w: Setup, st: State, cids: seq<CId>, m: Msg)
    requires w.Sound() && forall c :: c in cids ==> c in st.cidAddr
    requires w.Over(m, UDP)
    ensures var (r, st1) := SendEach(w, st, cids, m);
            var (mid, b) := (w.FrameOf(m).mid, w.FrameOf(m).payload);
            && (r.Ok? <==> cids == [] || (|b| <= w.config.maxMsgSize && st.udp.sendFault.None?))
            && (r.Ok? ==> st1 == st.(udp := st.udp.(sent := st.udp.sent + Datagrams(st, cids, DatagramBytes(mid, b, st.udp.clock)))))
            && (r.Err? ==> st1 == st)
    decreases |cids|
  {
    hide Setup.Sound, Setup.Route, DatagramBytes;
    RouteIs(w, m, UDP);
    var (mid, b) := (w.FrameOf(m).mid, w.FrameOf(m).payload);
    hide Setup.Over, Setup.FrameOf;
    if cids == [] {
      Units(st.udp.sent);
    } else {
      var (r, st1) := SendTo(w, st, cids[0], m);
      assert (r, st1) == SendUdp(w, st, cids[0], mid, b);
      if r.Ok? {
        var bytes := DatagramBytes(mid, b, st.udp.clock);
        UdpReaches(w, st1, cids[1..], m);
        SameDatagrams(st, st1, cids[1..], bytes);
        Assoc(st.udp.sent, [(st.cidAddr[cids[0]], bytes)], Datagrams(st, cids[1..], bytes));
      }
    }
  }

  lemma {:induction false} SameDatagrams(st: State, st1: State, cids: seq<CId>, bytes: seq<byte>)
    requires st1.cidAddr == st.cidAddr && forall c :: c in cids ==> c in st.cidAddr
    ensures Datagrams(st1, cids, bytes) == Datagrams(st, cids, bytes)
    decreases |cids|
  {
    if cids != [] {
      SameDatagrams(st, st1, cids[1..], bytes);
    }
  }

  // ------------------------------------------------------------------ together

  /** `send_spec`, and `broadcast` with `All`, over TCP: if it succeeds, exactly the
      registered ids that match have one more frame at the end of their streams, and
      it succeeds exactly when all these streams have room for it. */
  lemma {:induction false} SpecReaches(w: Setup, st: State, spec: CIdSpec, order: seq<CId>, m: Msg)
    requires w.Sound() && Receiving.Visits(order, st) && w.Over(m, TCP)
    ensures var (r, st1) := SendEach(w, st, Matching(spec, order), m);
            var f := w.FrameOf(m);
            && (r.Ok? <==> forall c :: c in st.tcp && spec.Matches(c) ==>
                            !st.tcp[c].shut && |Encode(f)| <= Min(w.TcpSize(), st.tcp[c].room))
            && (r.Ok? ==>
                  && st1 == st.(tcp := st1.tcp) && (forall c :: c in st1.tcp <==> c in st.tcp)
                  && forall c :: c in st.tcp ==>
                       st1.tcp[c].out == if spec.Matches(c) then st.tcp[c].out + Encode(f) else st.tcp[c].out)
  {
    hide Setup.Sound, Setup.FrameOf, SendEach, Encode, SendOn, Matching, NoDup;
    var cids := Matching(spec, order);
    var f := w.FrameOf(m);
    MatchingIs(spec, order);
    var n := TcpReaches(w, st, cids, m);
    assert n < |cids| ==> cids[n] in cids;
    assert n == |cids| ==> cids[..n] == cids;
    forall c | c in st.tcp
      ensures SendOn(w.TcpSize(), st.tcp[c], f).0.Ok? <==> !st.tcp[c].shut && |Encode(f)| <= Min(w.TcpSize(), st.tcp[c].room)
      ensures SendOn(w.TcpSize(), st.tcp[c], f).0.Ok? ==> SendOn(w.TcpSize(), st.tcp[c], f).1.out == st.tcp[c].out + Encode(f)
    {
      FrameLast(w.TcpSize(), st.tcp[c], f);
    }
  }

  lemma {:induction false} DatagramsAre(st: State, cids: seq<CId>, bytes: seq<byte>, a: Addr)
    requires forall c :: c in cids ==> c in st.cidAddr
    ensures (a, bytes) in Datagrams(st, cids, bytes) <==> exists c :: c in cids && st.cidAddr[c] == a
    ensures |Datagrams(st, cids, bytes)| == |cids|
    decreases |cids|
  {
    if cids != [] {
      DatagramsAre(st, cids[1..], bytes, a);
      HeadTail(cids);
      assert forall c :: c in cids <==> c == cids[0] || c in cids[1..];
      var rest := Datagrams(st, cids[1..], bytes);
      assert (a, bytes) in Datagrams(st, cids, bytes) <==> st.cidAddr[cids[0]] == a || (a, bytes) in rest;
    }
  }

  /** The same over UDP: one datagram to the address of each matching id, none to others. */
  lemma {:induction false} SpecReachesUdp(w: Setup, st: State, spec: CIdSpec, order: seq<CId>, m: Msg)
    requires w.Sound() && NoDup(order) && forall c :: c in order <==> c in st.cidAddr
    requires w.Over(m, UDP)
    ensures var (r, st1) := SendEach(w, st, Matching(spec, order), m);
            var bytes := DatagramBytes(w.FrameOf(m).mid, w.FrameOf(m).payload, st.udp.clock);
            r.Ok? ==>
              && |st1.udp.sent| == |st.udp.sent| + |Matching(spec, order)| && st.udp.sent <= st1.udp.sent
              && forall a :: (a, bytes) in st1.udp.sent[|st.udp.sent|..] <==>
                             exists c :: c in st.cidAddr && spec.Matches(c) && st.cidAddr[c] == a
  {
    hide Setup.Sound, Setup.FrameOf, SendEach, DatagramBytes, Matching, NoDup, Datagrams;
    var cids := Matching(spec, order);
    var bytes := DatagramBytes(w.FrameOf(m).mid, w.FrameOf(m).payload, st.udp.clock);
    MatchingIs(spec, order);
    UdpReaches(w, st, cids, m);
    var (r, st1) := SendEach(w, st, cids, m);
    if r.Ok? {
      var more := Datagrams(st, cids, bytes);
      assert st1.udp.sent[|st.udp.sent|..] == more;
      DatagramsAre(st, cids, bytes, 0);
      forall a
        ensures (a, bytes) in more <==> exists c :: c in st.cidAddr && spec.Matches(c) && st.cidAddr[c] == a
      {
        DatagramsAre(st, cids, bytes, a);
      }
    }
  }
}
