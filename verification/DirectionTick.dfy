/** Generating packets keeps the invariant of both directions. */
module DirectionTick {
  import opened Common
  import opened AckRanges
  import opened Wire
  import opened Stats
  import opened Connection
  import opened Direction
  import RS = ReliableSend
  import SS = SendScheduling
  import RR = ReliableReceive
  import U = Unreliable
  import DS = DirectionSend
  import LB = LossBound

  // ---------------------------------------------------------------- history

  /** The messages that unreliable channels cut up are numbered on. */
  function NoteSliced(h: History, sliced: map<byte, seq<Message>>): History {
    h.(sliced := map c | c in h.sliced.Keys + sliced.Keys :: At(h.sliced, c) + At(sliced, c))
  }

  lemma NoteSlicedAt(h: History, sliced: map<byte, seq<Message>>, c: byte)
    ensures At(NoteSliced(h, sliced).sliced, c) == At(h.sliced, c) + At(sliced, c)
  {
  }

  // ---------------------------------------------------------------- packets of one channel are genuine

  lemma ReliableGenuine(s: RS.SendState, c: byte, h: History, p: Packet)
    requires Holds(s, c, At(h.sent, c)) && SS.FromChannel(c, s.unacked, p)
    ensures Genuine(h, p) && (p.SmallReliable? || p.ReliableSlice?) && p.channelId == c
  {
    if p.SmallReliable? {
      forall e | e in p.entries
        ensures GenuineEntry(At(h.sent, c), e)
      {
        assert SS.HeldEntry(s.unacked, e);
      }
    }
  }

  lemma UnreliableGenuine(s: U.USend, c: byte, h: History, sliced: seq<Message>, p: Packet)
    requires s.channelId == c && Within(s.queue, At(h.usent, c)) && U.FromQueue(s, sliced, p)
    requires s.slicedId + |sliced| == |At(h.sliced, c)| && At(h.sliced, c)[s.slicedId..] == sliced
    ensures Genuine(h, p) && (p.SmallUnreliable? || p.UnreliableSlice?) && p.channelId == c
  {
    if p.SmallUnreliable? {
      forall m | m in p.messages
        ensures m in At(h.usent, c)
      {
        assert m in s.queue;
      }
    } else {
      var id := p.slice.messageId;
      assert At(h.sliced, c)[id] == sliced[id - s.slicedId];
    }
  }

  lemma TickKeepsChannel(s: RS.SendState, t: RS.SendState, c: byte, sent: seq<Message>, recvR: map<byte, RR.RecvState>)
    requires Holds(s, c, sent) && Known(s, recvR, c)
    requires RS.WfSend(t) && SS.SameMessages(s.unacked, t.unacked) && t == s.(unacked := t.unacked)
    ensures Holds(t, c, sent) && Known(t, recvR, c)
  {
    hide RS.WfSend, AcceptedBy, GotSliceBy;
    forall id | id in t.unacked
      ensures SS.SameMessage(s.unacked[id], t.unacked[id])
    {
      assert id in s.unacked;
    }
  }

  // ---------------------------------------------------------------- the loop over the channels

  datatype Channels = Channels(reliable: set<byte>, unreliable: set<byte>)

  ghost predicate GatheredPacket(p: Packet, h: History, channels: Channels) {
    && Genuine(h, p) && !p.Ack?
    && ((p.SmallReliable? || p.ReliableSlice?) ==> p.channelId in channels.reliable)
    && (p.UnreliableSlice? ==> p.channelId in channels.unreliable)
  }

  function ChannelsOf(g: Gathered): Channels {
    Channels(g.sendR.Keys, g.sendU.Keys)
  }

  ghost predicate GatheredPackets(ps: seq<Packet>, h: History, channels: Channels) {
    forall i :: 0 <= i < |ps| ==> GatheredPacket(ps[i], h, channels)
  }

  ghost predicate GatherOk(g: Gathered, recvR: map<byte, RR.RecvState>, h: History) {
    && SendROk(g.sendR, h) && SendUOk(g.sendU, h) && KnowledgeOk(g.sendR, recvR)
    && GatheredPackets(g.packets, h, ChannelsOf(g))
  }

  lemma AppendGathered(a: seq<Packet>, b: seq<Packet>, h: History, channels: Channels)
    requires GatheredPackets(a, h, channels) && GatheredPackets(b, h, channels)
    ensures GatheredPackets(a + b, h, channels)
  {
    hide GatheredPacket;
  }

  lemma ReliablePackets(s: RS.SendState, c: byte, h: History, channels: Channels, ps: seq<Packet>)
    requires Holds(s, c, At(h.sent, c)) && c in channels.reliable
    requires forall p :: p in ps ==> SS.FromChannel(c, s.unacked, p)
    ensures GatheredPackets(ps, h, channels)
  {
    hide Holds, SS.FromChannel, Genuine;
    forall i | 0 <= i < |ps|
      ensures GatheredPacket(ps[i], h, channels)
    {
      assert ps[i] in ps;
      ReliableGenuine(s, c, h, ps[i]);
    }
  }

  lemma UnreliablePackets(s: U.USend, c: byte, h: History, sliced: seq<Message>, channels: Channels, ps: seq<Packet>)
    requires s.channelId == c && Within(s.queue, At(h.usent, c)) && c in channels.unreliable
    requires s.slicedId + |sliced| == |At(h.sliced, c)| && At(h.sliced, c)[s.slicedId..] == sliced
    requires forall p :: p in ps ==> U.FromQueue(s, sliced, p)
    ensures GatheredPackets(ps, h, channels)
  {
    hide U.FromQueue, Genuine, Within;
    forall i | 0 <= i < |ps|
      ensures GatheredPacket(ps[i], h, channels)
    {
      assert ps[i] in ps;
      UnreliableGenuine(s, c, h, sliced, ps[i]);
    }
  }

  lemma ReliableTick(
    s: RS.SendState, c: byte, h: History, recvR: map<byte, RR.RecvState>, channels: Channels,
    first: nat, available: nat, now: Time)
    requires Holds(s, c, At(h.sent, c)) && Known(s, recvR, c) && c in channels.reliable
    ensures SS.AllWf(s.unacked)
    ensures var t := SS.GetPackets(s, first, available, now);
      && Holds(t.state, c, At(h.sent, c)) && Known(t.state, recvR, c)
      && GatheredPackets(t.packets, h, channels)
  {
    assert RS.WfSend(s) && s.channelId == c;
    hide Holds, Known, GatheredPackets, SS.GetPackets, SS.FromChannel, SS.SameMessages, RS.WfUnacked;
    SS.GetPacketsWf(s, first, available, now);
    SS.TickIsSound(s, first, available, now);
    var t := SS.GetPackets(s, first, available, now);
    TickKeepsChannel(s, t.state, c, At(h.sent, c), recvR);
    ReliablePackets(s, c, h, channels, t.packets);
  }

  lemma GatherReliable(g: Gathered, now: Time, c: byte, recvR: map<byte, RR.RecvState>, h: History)
    requires WfGathered(g) && c in g.sendR && GatherOk(g, recvR, h)
    ensures GatherOk(GatherOne(g, now, Reliable(c)), recvR, h)
    ensures GatherOne(g, now, Reliable(c)).sliced == g.sliced
  {
    hide SS.GetPackets, RS.WfSend, SS.AllWf, Holds, Known, GatheredPackets, SendUOk, WfGathered;
    assert Holds(g.sendR[c], c, At(h.sent, c)) && Known(g.sendR[c], recvR, c);
    ReliableTick(g.sendR[c], c, h, recvR, ChannelsOf(g), g.sequence, g.available, now);
    AppendGathered(g.packets, SS.GetPackets(g.sendR[c], g.sequence, g.available, now).packets, h, ChannelsOf(g));
    assert ChannelsOf(GatherOne(g, now, Reliable(c))) == ChannelsOf(g);
  }

  /** Cutting messages up extends the history. */
  lemma SlicedExtends(h: History, h': History, c: byte, more: seq<Message>)
    requires h' == h.(sliced := h'.sliced)
    requires forall k: byte :: At(h'.sliced, k) == At(h.sliced, k) + if k == c then more else []
    requires Within(more, At(h.usent, c))
    ensures DS.OnlySent(h, h')
  {
    forall k: byte | Within(At(h.sliced, k), At(h.usent, k))
      ensures Within(At(h'.sliced, k), At(h'.usent, k))
    {
      if k == c {
        ConcatWithin(At(h.sliced, c), more, At(h.usent, c));
      } else {
        assert At(h'.sliced, k) == At(h.sliced, k);
      }
    }
    forall k: byte
      ensures At(h.sliced, k) <= At(h'.sliced, k)
    {
      assert At(h'.sliced, k) == At(h.sliced, k) + if k == c then more else [];
    }
    hide Within;
  }

  lemma ConcatWithin<T>(a: seq<T>, b: seq<T>, all: seq<T>)
    requires Within(a, all) && Within(b, all)
    ensures Within(a + b, all)
  {
    forall x | x in a + b
      ensures x in all
    {
      assert x in a || x in b;
    }
  }

  lemma ExtendGathered(ps: seq<Packet>, h: History, h': History, channels: Channels)
    requires GatheredPackets(ps, h, channels) && Extends(h, h')
    ensures GatheredPackets(ps, h', channels)
  {
    hide Genuine, Extends;
    forall i | 0 <= i < |ps|
      ensures GatheredPacket(ps[i], h', channels)
    {
      assert GatheredPacket(ps[i], h, channels);
      GenuineMonotone(h, h', ps[i]);
    }
  }

  lemma UTickHolds(s: U.USend, t: U.UTick, c: byte, usent: seq<Message>, sliced: seq<Message>)
    requires UHolds(s, c, usent, sliced)
    requires U.WfUSend(t.state) && t.state.queue == [] && Within(t.sliced, s.queue)
    requires t.state == s.(queue := [], memoryUsage := 0, slicedId := s.slicedId + |t.sliced|)
    ensures UHolds(t.state, c, usent, sliced + t.sliced) && Within(t.sliced, usent)
  {
    forall m | m in t.sliced
      ensures m in usent
    {
      assert m in s.queue;
    }
    ConcatWithin(sliced, t.sliced, usent);
    hide U.WfUSend;
  }

  lemma UnreliableTick(
    s: U.USend, c: byte, h: History, h': History, channels: Channels, first: nat, available: nat)
    requires UHolds(s, c, At(h.usent, c), At(h.sliced, c)) && h'.usent == h.usent && c in channels.unreliable
    ensures U.WfUSend(s)
    ensures var t := U.UGetPackets(s, first, available);
      && UHolds(t.state, c, At(h.usent, c), At(h.sliced, c) + t.sliced) && Within(t.sliced, At(h.usent, c))
      && (At(h'.sliced, c) == At(h.sliced, c) + t.sliced ==> GatheredPackets(t.packets, h', channels))
  {
    U.UTickIsSound(s, first, available);
    var t := U.UGetPackets(s, first, available);
    assert t.state == s.(queue := [], memoryUsage := 0, slicedId := s.slicedId + |t.sliced|);
    UTickHolds(s, t, c, At(h.usent, c), At(h.sliced, c));
    hide U.UGetPackets, U.WfUSend, U.FromQueue, GatheredPackets, Within;
    if At(h'.sliced, c) == At(h.sliced, c) + t.sliced {
      UnreliablePackets(s, c, h', t.sliced, channels, t.packets);
    }
  }

  lemma ExtendSendU(sendU: map<byte, U.USend>, h: History, h': History, c: byte, s: U.USend)
    requires SendUOk(sendU, h) && c in sendU && h'.usent == h.usent
    requires forall k: byte :: k != c ==> At(h'.sliced, k) == At(h.sliced, k)
    requires UHolds(s, c, At(h.usent, c), At(h'.sliced, c))
    ensures SendUOk(sendU[c := s], h')
  {
    hide UHolds;
  }

  /** `h'` is `h` with `more` appended to the messages that channel `c` cut up. */
  ghost predicate CutMore(h: History, h': History, c: byte, more: seq<Message>) {
    && h' == h.(sliced := h'.sliced)
    && (forall k: byte :: At(h'.sliced, k) == At(h.sliced, k) + if k == c then more else [])
  }

  lemma NoteSlicedMore(h0: History, sliced: map<byte, seq<Message>>, c: byte, more: seq<Message>)
    ensures CutMore(NoteSliced(h0, sliced), NoteSliced(h0, sliced[c := At(sliced, c) + more]), c, more)
  {
    hide At;
    var sliced' := sliced[c := At(sliced, c) + more];
    forall k: byte
      ensures At(NoteSliced(h0, sliced').sliced, k) ==
              At(NoteSliced(h0, sliced).sliced, k) + if k == c then more else []
    {
      NoteSlicedOne(h0, sliced, c, more, k);
    }
  }

  lemma NoteSlicedOne(h0: History, sliced: map<byte, seq<Message>>, c: byte, more: seq<Message>, k: byte)
    ensures At(NoteSliced(h0, sliced[c := At(sliced, c) + more]).sliced, k) ==
            At(NoteSliced(h0, sliced).sliced, k) + if k == c then more else []
  {
    hide NoteSliced;
    var sliced' := sliced[c := At(sliced, c) + more];
    NoteSlicedAt(h0, sliced, k);
    NoteSlicedAt(h0, sliced', k);
    assert At(sliced', k) == At(sliced, k) + if k == c then more else [];
  }

  lemma CutMoreExtends(h: History, h': History, c: byte, more: seq<Message>)
    requires CutMore(h, h', c, more) && Within(more, At(h.usent, c))
    ensures DS.OnlySent(h, h') && Extends(h, h')
  {
    SlicedExtends(h, h', c, more);
  }

  lemma CutMoreSendU(sendU: map<byte, U.USend>, h: History, h': History, c: byte, more: seq<Message>, s: U.USend)
    requires SendUOk(sendU, h) && c in sendU && CutMore(h, h', c, more)
    requires UHolds(s, c, At(h.usent, c), At(h.sliced, c) + more)
    ensures SendUOk(sendU[c := s], h')
  {
    hide UHolds;
    forall k: byte
      ensures k != c ==> At(h'.sliced, k) == At(h.sliced, k)
      ensures k == c ==> At(h'.sliced, k) == At(h.sliced, k) + more
    {
      assert At(h'.sliced, k) == At(h.sliced, k) + if k == c then more else [];
    }
    ExtendSendU(sendU, h, h', c, s);
  }

  lemma CutMoreRest(g: Gathered, recvR: map<byte, RR.RecvState>, h: History, h': History, c: byte, more: seq<Message>)
    requires GatherOk(g, recvR, h) && CutMore(h, h', c, more) && Within(more, At(h.usent, c))
    ensures SendROk(g.sendR, h') && KnowledgeOk(g.sendR, recvR) && GatheredPackets(g.packets, h', ChannelsOf(g))
  {
    hide Holds, Known, SendUOk, Genuine;
    CutMoreExtends(h, h', c, more);
    ExtendGathered(g.packets, h, h', ChannelsOf(g));
  }

  lemma UnreliableTickCut(
    s: U.USend, c: byte, h: History, h': History, channels: Channels, first: nat, available: nat)
    requires UHolds(s, c, At(h.usent, c), At(h.sliced, c)) && U.WfUSend(s) && c in channels.unreliable
    requires CutMore(h, h', c, U.UGetPackets(s, first, available).sliced)
    ensures GatheredPackets(U.UGetPackets(s, first, available).packets, h', channels)
  {
    hide UHolds, U.UGetPackets, GatheredPackets;
    assert At(h'.sliced, c) == At(h.sliced, c) + U.UGetPackets(s, first, available).sliced;
    UnreliableTick(s, c, h, h', channels, first, available);
  }

  lemma GatherUnreliable(g: Gathered, now: Time, c: byte, recvR: map<byte, RR.RecvState>, h0: History)
    requires WfGathered(g) && c in g.sendU && GatherOk(g, recvR, NoteSliced(h0, g.sliced))
    ensures var g' := GatherOne(g, now, Unreliable(c));
      && GatherOk(g', recvR, NoteSliced(h0, g'.sliced))
      && DS.OnlySent(NoteSliced(h0, g.sliced), NoteSliced(h0, g'.sliced))
  {
    hide UHolds, SendROk, KnowledgeOk, GatheredPackets, U.UGetPackets, Within, NoteSliced, DS.OnlySent, Extends, At, CutMore;
    var g' := GatherOne(g, now, Unreliable(c));
    var h, h' := NoteSliced(h0, g.sliced), NoteSliced(h0, g'.sliced);
    var t := U.UGetPackets(g.sendU[c], g.sequence, g.available);
    NoteSlicedMore(h0, g.sliced, c, t.sliced);
    UnreliableTick(g.sendU[c], c, h, h, ChannelsOf(g), g.sequence, g.available);
    UnreliableTickCut(g.sendU[c], c, h, h', ChannelsOf(g), g.sequence, g.available);
    CutMoreExtends(h, h', c, t.sliced);
    CutMoreSendU(g.sendU, h, h', c, t.sliced, t.state);
    CutMoreRest(g, recvR, h, h', c, t.sliced);
    assert ChannelsOf(g') == ChannelsOf(g);
    AppendGathered(g.packets, t.packets, h', ChannelsOf(g));
  }

  lemma OnlySentTransitive(a: History, b: History, c: History)
    requires DS.OnlySent(a, b) && DS.OnlySent(b, c)
    ensures DS.OnlySent(a, c)
  {
    hide Within, At;
  }

  /** The state of the loop matches the history extended by what was cut up so far. */
  ghost predicate GatherFine(g: Gathered, recvR: map<byte, RR.RecvState>, h: History) {
    GatherOk(g, recvR, NoteSliced(h, g.sliced)) && DS.OnlySent(h, NoteSliced(h, g.sliced))
  }

  lemma GatherStart(g: Gathered, recvR: map<byte, RR.RecvState>, h: History)
    requires g.packets == [] && g.sliced == map[]
    requires SendROk(g.sendR, h) && SendUOk(g.sendU, h) && KnowledgeOk(g.sendR, recvR)
    ensures GatherFine(g, recvR, h)
  {
    hide Holds, UHolds, KnowledgeOk, Within;
    forall c: byte
      ensures At(NoteSliced(h, map[]).sliced, c) == At(h.sliced, c)
    {
      NoteSlicedAt(h, map[], c);
    }
  }

  lemma GatherStep(g: Gathered, now: Time, order: ChannelOrder, recvR: map<byte, RR.RecvState>, h: History)
    requires WfGathered(g) && Exists(order, g.sendR.Keys, g.sendU.Keys) && GatherFine(g, recvR, h)
    ensures GatherFine(GatherOne(g, now, order), recvR, h)
  {
    hide GatherOk, DS.OnlySent, NoteSliced, GatherOne, WfGathered;
    match order {
      case Reliable(c) =>
        GatherReliable(g, now, c, recvR, NoteSliced(h, g.sliced));
      case Unreliable(c) =>
        GatherUnreliable(g, now, c, recvR, h);
        OnlySentTransitive(h, NoteSliced(h, g.sliced), NoteSliced(h, GatherOne(g, now, order).sliced));
    }
  }

  /** All channels together: every packet is genuine and no channel forgets anything. */
  lemma {:induction false} GatherKeeps(x: Endpoint, recvR: map<byte, RR.RecvState>, h: History, k: nat)
    requires WfEndpoint(x) && k <= |x.sendOrder|
    requires SendROk(x.sendR, h) && SendUOk(x.sendU, h) && KnowledgeOk(x.sendR, recvR)
    ensures GatherFine(Gather(x, k), recvR, h)
  {
    hide GatherFine, SendROk, SendUOk, KnowledgeOk, GatherOne, WfGathered, RS.WfSend, U.WfUSend, RR.MemoryExact,
      UMemoryExact, Normal, Exists, WfStats;
    if k == 0 {
      GatherStart(Gather(x, 0), recvR, h);
    } else {
      GatherKeeps(x, recvR, h, k - 1);
      GatherStep(Gather(x, k - 1), x.currentTime, x.sendOrder[k - 1], recvR, h);
    }
  }

  // ---------------------------------------------------------------- a whole tick

  /** What every packet of a tick is. */
  ghost predicate TickPacket(p: Packet, x: Endpoint, h: History) {
    && Genuine(h, p)
    && ((p.SmallReliable? || p.ReliableSlice?) ==> p.channelId in x.sendR)
    && (p.UnreliableSlice? ==> p.channelId in x.sendU)
    && (p.Ack? ==> p.ackRanges == x.pendingAcks)
  }

  ghost predicate TickPacketsOk(ps: seq<Packet>, x: Endpoint, h: History) {
    forall i :: 0 <= i < |ps| ==> TickPacket(ps[i], x, h)
  }

  lemma GatheredAreTickPackets(ps: seq<Packet>, x: Endpoint, h: History)
    requires GatheredPackets(ps, h, Channels(x.sendR.Keys, x.sendU.Keys))
    ensures TickPacketsOk(ps, x, h)
  {
    hide Genuine;
    forall i | 0 <= i < |ps|
      ensures TickPacket(ps[i], x, h)
    {
      assert GatheredPacket(ps[i], h, Channels(x.sendR.Keys, x.sendU.Keys));
    }
  }

  lemma AppendTickPacket(ps: seq<Packet>, p: Packet, x: Endpoint, h: History)
    requires TickPacketsOk(ps, x, h) && TickPacket(p, x, h)
    ensures TickPacketsOk(ps + [p], x, h)
  {
    hide TickPacket;
  }

  lemma WfPending(x: Endpoint)
    requires WfEndpoint(x)
    ensures Normal(x.pendingAcks)
  {
  }

  lemma GatherFineParts(g: Gathered, recvR: map<byte, RR.RecvState>, h: History)
    requires GatherFine(g, recvR, h)
    ensures GatheredPackets(g.packets, NoteSliced(h, g.sliced), ChannelsOf(g))
  {
  }

  lemma TickPackets(x: Endpoint, recvR: map<byte, RR.RecvState>, h: History)
    requires WfEndpoint(x) && GatherFine(Gather(x, |x.sendOrder|), recvR, h)
    requires x.pendingAcks != [] ==> x.pendingAcks[|x.pendingAcks| - 1].end <= VARINT_LIMIT
    ensures TickPacketsOk(AllPackets(x), x, NoteSliced(h, Gather(x, |x.sendOrder|).sliced))
  {
    hide WfEndpoint, Gather, NoteSliced, GatherFine, Normal, GatheredPackets, TickPacketsOk, WfGathered;
    var g := Gather(x, |x.sendOrder|);
    var h' := NoteSliced(h, g.sliced);
    GatherFineParts(g, recvR, h);
    GatheredAreTickPackets(g.packets, x, h');
    if x.pendingAcks == [] {
      assert AllPackets(x) == g.packets;
    } else {
      WfPending(x);
      AppendTickPacket(g.packets, Ack(g.sequence, x.pendingAcks), x, h');
    }
  }

  lemma {:induction false} SerializedPayloads(ps: seq<Packet>)
    ensures SerializeAll(ps).Payloads? ==> |SerializeAll(ps).payloads| == |ps| && WireOk(ps, SerializeAll(ps).payloads)
  {
    hide Encodable, Encode;
    if ps != [] {
      SerializedPayloads(ps[..|ps| - 1]);
    }
  }

  lemma AppendWire(log: seq<Packet>, wire: seq<seq<byte>>, ps: seq<Packet>, b: seq<seq<byte>>)
    requires WireOk(log, wire) && |wire| == |log| && WireOk(ps, b)
    ensures WireOk(log + ps, wire + b)
  {
    hide Encodable, Encode;
  }

  lemma AppendLog(log: seq<Packet>, ps: seq<Packet>, x: Endpoint, h: History)
    requires LogOk(log, h) && TickPacketsOk(ps, x, h)
    ensures LogOk(log + ps, h)
  {
    hide Genuine;
  }

  lemma AppendLink(
    link: Link, h: History, n: nat, x: Endpoint, ps: seq<Packet>, payloads: seq<seq<byte>>, alive: bool)
    requires LinkOk(link, h, n, true) && Consecutive(ps, n)
    requires TickPacketsOk(ps, x, h)
    requires if alive then SerializeAll(ps) == Payloads(payloads) else payloads == []
    ensures LinkOk(Link(link.log + ps, link.wire + payloads), h, n + |ps|, alive)
  {
    hide SerializeAll, Consecutive, LogOk, TickPacketsOk, Encodable, Encode;
    SerializedPayloads(ps);
    ConsecutiveConcat(link.log, ps, 0);
    AppendLog(link.log, ps, x, h);
    AppendWire(link.log, link.wire, ps, payloads);
  }

  lemma AppendTrack(sent: map<nat, PacketSent>, log: seq<Packet>, ps: seq<Packet>, now: Time)
    requires TrackOk(sent, log) && Consecutive(ps, |log|)
    ensures TrackOk(Record(sent, ps, now), log + ps)
  {
    hide InfoOf;
    LB.RecordAdds(sent, ps, now, |log|);
  }

  lemma AppendChannels(log: seq<Packet>, ps: seq<Packet>, x: Endpoint, h: History)
    requires ChannelsOk(log, x.sendR.Keys) && TickPacketsOk(ps, x, h)
    ensures ChannelsOk(log + ps, x.sendR.Keys)
  {
    hide Genuine;
  }

  lemma AppendProcessed(
    link: Link, recvR: map<byte, RR.RecvState>, processed: set<nat>, ps: seq<Packet>, payloads: seq<seq<byte>>)
    requires ProcessedOk(link, recvR, processed) && |payloads| <= |ps| && |link.wire| <= |link.log|
    ensures ProcessedOk(Link(link.log + ps, link.wire + payloads), recvR, processed)
  {
    hide Absorbed;
  }

  lemma AppendAckLog(log: seq<Packet>, ps: seq<Packet>, x: Endpoint, h: History, processed: set<nat>)
    requires AckLogOk(log, processed) && AcksOk(x.pendingAcks, processed)
    requires TickPacketsOk(ps, x, h)
    ensures AckLogOk(log + ps, processed)
  {
    hide Genuine, AcksOk;
  }

  /** The history after a tick. */
  ghost function TickHistory(x: Endpoint, h: History): History
    requires WfEndpoint(x)
  {
    if Alive(x) then NoteSliced(h, Gather(x, |x.sendOrder|).sliced) else h
  }

  ghost function TickLink(x: Endpoint, xy: Link): Link
    requires WfEndpoint(x)
  {
    Link(xy.log + GetPackets(x).packets, xy.wire + GetPackets(x).payloads)
  }

  ghost predicate PendingEnd(x: Endpoint) {
    x.pendingAcks != [] ==> x.pendingAcks[|x.pendingAcks| - 1].end <= VARINT_LIMIT
  }

  lemma TickLinkOk(x: Endpoint, xy: Link, h: History)
    requires WfEndpoint(x) && Alive(x) && PendingEnd(x)
    requires SenderOk(x, xy, h) && DS.OnlySent(h, TickHistory(x, h))
    requires TickPacketsOk(AllPackets(x), x, TickHistory(x, h))
    ensures var x' := GetPackets(x).endpoint;
      && LinkOk(TickLink(x, xy), TickHistory(x, h), x'.packetSequence, Alive(x'))
      && TrackOk(x'.sentPackets, TickLink(x, xy).log)
      && ChannelsOk(TickLink(x, xy).log, x.sendR.Keys)
      && |GetPackets(x).payloads| <= |GetPackets(x).packets|
  {
    assert |xy.log| == x.packetSequence;
    hide WfEndpoint, GetPackets, AllPackets, TickHistory, SendROk, SendUOk, LinkOk, TrackOk, ChannelsOk,
      TickPacketsOk, SerializeAll, Record, Gather, Extends, WireOk, Consecutive;
    GetPacketsShape(x);
    var ps := AllPackets(x);
    SerializedPayloads(ps);
    DS.ExtendLink(xy, h, TickHistory(x, h), x.packetSequence, true);
    AppendLink(xy, TickHistory(x, h), x.packetSequence, x, ps, GetPackets(x).payloads, Alive(GetPackets(x).endpoint));
    AppendTrack(x.sentPackets, xy.log, ps, x.currentTime);
    AppendChannels(xy.log, ps, x, TickHistory(x, h));
  }

  /** `x` generates packets: the direction from `x` to `y`. */
  lemma TickSends(x: Endpoint, y: Endpoint, xy: Link, yx: Link, h: History)
    requires DirInv(x, y, xy, yx, h) && WfEndpoint(x) && PendingEnd(x)
    ensures DirInv(GetPackets(x).endpoint, y, TickLink(x, xy), yx, TickHistory(x, h))
  {
    if Alive(x) {
      GatherKeeps(x, y.recvR, h, |x.sendOrder|);
      TickPackets(x, y.recvR, h);
      GetPacketsShape(x);
      hide WfEndpoint, GetPackets, Gather, AllPackets, NoteSliced, LinkOk, TrackOk, ChannelsOk, SendROk, SendUOk,
        RecvROk, RecvUOk, ProcessedOk, KnowledgeOk, GatheredPackets, DS.OnlySent, TickPacketsOk, SerializeAll, Record,
        AckLogOk, AcksOk, Normal;
      TickLinkOk(x, xy, h);
      DS.ExtendReceiver(y, h, TickHistory(x, h));
      AppendProcessed(xy, y.recvR, h.processed, GetPackets(x).packets, GetPackets(x).payloads);
    } else {
      DeadTick(x);
      assert xy.log + [] == xy.log && xy.wire + [] == xy.wire;
    }
  }

  /** `x` generates packets: the direction from `y` to `x`. */
  lemma TickReceives(x: Endpoint, y: Endpoint, xy: Link, yx: Link, h: History, hr: History)
    requires DirInv(y, x, yx, xy, hr) && DirInv(x, y, xy, yx, h) && WfEndpoint(x) && PendingEnd(x)
    ensures DirInv(y, GetPackets(x).endpoint, yx, TickLink(x, xy), hr)
  {
    if Alive(x) {
      hide WfEndpoint, GetPackets, Gather, AllPackets, NoteSliced, SenderOk, RecvROk, RecvUOk, ProcessedOk,
        GatheredPackets, TickPacketsOk, SerializeAll, Record, AckLogOk, AcksOk, Normal, GatherFine;
      assert SendROk(x.sendR, h) && SendUOk(x.sendU, h) by { SenderParts(x, xy, h); }
      GatherKeeps(x, y.recvR, h, |x.sendOrder|);
      TickPackets(x, y.recvR, h);
      GetPacketsShape(x);
      AppendAckLog(xy.log, AllPackets(x), x, NoteSliced(h, Gather(x, |x.sendOrder|).sliced), hr.processed);
    } else {
      DeadTick(x);
      assert xy.log + [] == xy.log && xy.wire + [] == xy.wire;
    }
  }

  lemma SenderParts(x: Endpoint, xy: Link, h: History)
    requires SenderOk(x, xy, h)
    ensures SendROk(x.sendR, h) && SendUOk(x.sendU, h)
  {
  }
}
