/** Steps of the receiving endpoint keep the invariant of a direction. */
module DirectionReceive {
  import opened Common
  import opened AckRanges
  import opened Wire
  import opened Stats
  import opened Connection
  import opened Direction
  import Slicing
  import RS = ReliableSend
  import SS = SendScheduling
  import RR = ReliableReceive
  import U = Unreliable

  // ---------------------------------------------------------------- decoding what was sent

  lemma {:induction false} EntriesAreFew(es: seq<Entry>)
    ensures 2 * |es| <= SS.EntriesSize(es)
  {
    if es != [] {
      EntriesAreFew(es[..|es| - 1]);
    }
  }

  lemma {:induction false} MessagesAreFew(ms: seq<Message>)
    ensures |ms| <= U.MessagesSize(ms)
  {
    if ms != [] {
      MessagesAreFew(ms[..|ms| - 1]);
    }
  }

  /** The receiver decodes exactly the packet that was sent, or refuses it for its number of slices. */
  lemma GenuineDecodes(h: History, p: Packet)
    requires Genuine(h, p) && Encodable(p)
    ensures Decode(Encode(p)) == if TooManySlices(p) then Err(InvalidNumSlices) else Ok(p)
  {
    hide Encode, Decode, Encodable;
    assert Encode(p) + [] == Encode(p);
    match p {
      case SmallReliable(_, _, es) =>
        EntriesAreFew(es);
        PacketRoundTrip(p, []);
      case SmallUnreliable(_, _, ms) =>
        MessagesAreFew(ms);
        PacketRoundTrip(p, []);
      case Ack(_, _) =>
        PacketRoundTrip(p, []);
      case _ =>
        if p.slice.numSlices > MAX_NUM_SLICES {
          TooManySlicesRefused(p, []);
        } else {
          PacketRoundTrip(p, []);
        }
    }
  }

  // ---------------------------------------------------------------- channels

  lemma GrowsTransitive(a: RR.RecvState, b: RR.RecvState, c: RR.RecvState)
    requires RR.Grows(a, b) && RR.Grows(b, c)
    ensures RR.Grows(a, c)
  {
    hide RR.Accepted, RR.GotSlice;
  }

  /** All small messages of a packet. */
  lemma {:induction false} ProcessEntriesInv(r: RR.RecvState, sent: seq<Message>, delivered: seq<nat>, es: seq<Entry>)
    requires RR.RecvInv(r, sent, delivered) && forall e :: e in es ==> GenuineEntry(sent, e)
    ensures var o := ProcessEntries(r, es);
      && RR.RecvInv(o.state, sent, delivered)
      && RR.Grows(r, o.state)
      && (o.error.None? ==> forall e :: e in es ==> RR.Accepted(o.state, e.id))
      && (o.error.None? || o.error == Some(RR.MaxMemoryReached))
    decreases |es|
  {
    if es != [] {
      assert GenuineEntry(sent, es[0]);
      RR.ProcessMessageInv(r, sent, delivered, es[0].id);
      hide RR.RecvInv, RR.ProcessMessage, RR.Accepted, RR.GotSlice;
      var o := RR.ProcessMessage(r, es[0].payload, es[0].id);
      if o.error.None? {
        ProcessEntriesInv(o.state, sent, delivered, es[1..]);
        GrowsTransitive(r, o.state, ProcessEntries(o.state, es[1..]).state);
        assert forall e :: e in es ==> e == es[0] || e in es[1..];
      }
    }
  }

  lemma {:induction false} UProcessMessagesInv(
    r: U.URecv, sent: seq<Message>, sliced: seq<Message>, now: Time, ms: seq<Message>)
    requires U.URecvInv(r, sent, sliced, now) && Within(ms, sent)
    ensures U.URecvInv(UProcessMessages(r, ms), sent, sliced, now)
    decreases |ms|
  {
    hide U.URecvInv, U.UProcessMessage;
    if ms != [] {
      U.UProcessMessageInv(r, sent, sliced, now, ms[0]);
      UProcessMessagesInv(U.UProcessMessage(r, ms[0]), sent, sliced, now, ms[1..]);
    }
  }

  // ---------------------------------------------------------------- data packets

  lemma ReplaceRecvR(y: Endpoint, h: History, c: byte, r: RR.RecvState)
    requires ReceiverOk(y, h) && c in y.recvR
    requires RR.RecvInv(r, At(h.sent, c), At(h.delivered, c))
    ensures RecvROk(y.recvR[c := r], h)
    ensures RecvUOk(y.recvR[c := r], y.recvU, h, y.currentTime)
  {
    hide RR.RecvInv, U.URecvInv, OutOk;
  }

  lemma ReplaceRecvU(y: Endpoint, h: History, c: byte, r: U.URecv)
    requires ReceiverOk(y, h) && c in y.recvU
    requires U.URecvInv(r, At(h.usent, c), At(h.sliced, c), y.currentTime)
    ensures RecvUOk(y.recvR, y.recvU[c := r], h, y.currentTime)
  {
    hide RR.RecvInv, U.URecvInv;
  }

  /** The fields that handling a data packet leaves alone. */
  ghost predicate SameSending(y: Endpoint, r: Endpoint) {
    && r.packetSequence == y.packetSequence && r.currentTime == y.currentTime
    && r.sentPackets == y.sentPackets && r.pendingAcks == y.pendingAcks
    && r.sendR == y.sendR && r.sendU == y.sendU && r.sendOrder == y.sendOrder
    && r.stats == y.stats && r.bytesPerTick == y.bytesPerTick
  }

  /** What handling a genuine data packet achieves. */
  ghost predicate Took(y: Endpoint, r: Endpoint, p: Packet, h: History) {
    && ReceiverOk(r, h)
    && RecvGrows(y.recvR, r.recvR) && r.recvU.Keys == y.recvU.Keys && r.recvR.Keys == y.recvR.Keys
    && (Alive(r) ==> Absorbed(r.recvR, p))
    && !r.status.Panicked?
    && SameSending(y, r)
  }

  lemma HandleReliableTook(y: Endpoint, p: Packet, h: History, c: byte, o: RR.RecvOutcome)
    requires ReceiverOk(y, h) && Alive(y) && c in y.recvR
    requires RR.RecvInv(o.state, At(h.sent, c), At(h.delivered, c)) && RR.Grows(y.recvR[c], o.state)
    requires o.error.None? ==> Absorbed(y.recvR[c := o.state], p)
    requires o.error.None? || o.error == Some(RR.MaxMemoryReached)
    ensures Took(y, HandleReliable(y, c, o), p, h)
  {
    hide RecvROk, RecvUOk, RR.RecvInv, RR.Grows, RecvGrows, Absorbed;
    ReplaceRecvR(y, h, c, o.state);
    GrowsOne(y.recvR, c, o.state);
  }

  lemma GrowsSelf(recvR: map<byte, RR.RecvState>)
    ensures RecvGrows(recvR, recvR)
  {
  }

  /** A packet for a channel that does not exist ends the connection and changes nothing else. */
  lemma RefusedTook(y: Endpoint, p: Packet, h: History, reason: DisconnectReason)
    requires ReceiverOk(y, h) && Alive(y)
    ensures Took(y, Disconnect(y, reason), p, h)
  {
    hide RecvROk, RecvUOk, RecvGrows, Absorbed;
    GrowsSelf(y.recvR);
  }

  lemma ChannelInv(y: Endpoint, h: History, c: byte)
    requires ReceiverOk(y, h) && c in y.recvR
    ensures RR.RecvInv(y.recvR[c], At(h.sent, c), At(h.delivered, c))
  {
    hide RR.RecvInv, OutOk, RecvUOk;
  }

  lemma UChannelInv(y: Endpoint, h: History, c: byte)
    requires ReceiverOk(y, h) && c in y.recvU
    ensures U.URecvInv(y.recvU[c], At(h.usent, c), At(h.sliced, c), y.currentTime)
  {
    hide U.URecvInv, RecvROk, Within;
  }

  lemma HandleSmallReliable(y: Endpoint, p: Packet, h: History)
    requires WfStats(y.stats) && ReceiverOk(y, h) && Alive(y) && Genuine(h, p) && p.SmallReliable?
    ensures Took(y, Handle(y, p), p, h)
  {
    hide ReceiverOk, RR.RecvInv, RR.Grows, Took, ProcessEntries, HandleReliable, RR.Accepted, Disconnect, WfStats;
    var c := p.channelId;
    if c in y.recvR {
      ChannelInv(y, h, c);
      var r := y.recvR[c];
      ProcessEntriesInv(r, At(h.sent, c), At(h.delivered, c), p.entries);
      HandleReliableTook(y, p, h, c, ProcessEntries(r, p.entries));
    } else {
      RefusedTook(y, p, h, ReceivedInvalidChannelId(c));
    }
  }

  lemma HandleReliableSlice(y: Endpoint, p: Packet, h: History)
    requires WfStats(y.stats) && ReceiverOk(y, h) && Alive(y) && Genuine(h, p) && p.ReliableSlice?
    ensures Took(y, Handle(y, p), p, h)
  {
    hide ReceiverOk, RR.RecvInv, RR.Grows, Took, RR.ProcessSlice, HandleReliable, RR.GotSlice, Disconnect, WfStats,
      RR.GenuineSlice;
    var c := p.channelId;
    if c in y.recvR {
      ChannelInv(y, h, c);
      var r := y.recvR[c];
      RR.ProcessSliceInv(r, At(h.sent, c), At(h.delivered, c), p.slice);
      HandleReliableTook(y, p, h, c, RR.ProcessSlice(r, p.slice));
    } else {
      RefusedTook(y, p, h, ReceivedInvalidChannelId(c));
    }
  }

  lemma ReplaceUTook(y: Endpoint, p: Packet, h: History, c: byte, r: U.URecv)
    requires ReceiverOk(y, h) && Alive(y) && c in y.recvU && (p.SmallUnreliable? || p.UnreliableSlice?)
    requires U.URecvInv(r, At(h.usent, c), At(h.sliced, c), y.currentTime)
    ensures Took(y, y.(recvU := y.recvU[c := r]), p, h)
  {
    hide RecvROk, RecvUOk, RecvGrows, U.URecvInv;
    GrowsSelf(y.recvR);
    ReplaceRecvU(y, h, c, r);
  }

  lemma HandleSmallUnreliable(y: Endpoint, p: Packet, h: History)
    requires WfStats(y.stats) && ReceiverOk(y, h) && Alive(y) && Genuine(h, p) && p.SmallUnreliable?
    ensures Took(y, Handle(y, p), p, h)
  {
    hide ReceiverOk, Took, U.URecvInv, UProcessMessages, Disconnect, WfStats, Within;
    var c := p.channelId;
    if c in y.recvU {
      UChannelInv(y, h, c);
      UProcessMessagesInv(y.recvU[c], At(h.usent, c), At(h.sliced, c), y.currentTime, p.messages);
      ReplaceUTook(y, p, h, c, UProcessMessages(y.recvU[c], p.messages));
    } else {
      RefusedTook(y, p, h, ReceivedInvalidChannelId(c));
    }
  }

  lemma HandleUnreliableSlice(y: Endpoint, p: Packet, h: History)
    requires WfStats(y.stats) && ReceiverOk(y, h) && Alive(y) && Genuine(h, p) && p.UnreliableSlice?
    ensures Took(y, Handle(y, p), p, h)
  {
    hide ReceiverOk, Took, U.URecvInv, U.UProcessSlice, Disconnect, WfStats, RR.GenuineSlice;
    var c := p.channelId;
    if c in y.recvU {
      UChannelInv(y, h, c);
      U.UProcessSliceInv(y.recvU[c], At(h.usent, c), At(h.sliced, c), y.currentTime, p.slice);
      ReplaceUTook(y, p, h, c, U.UProcessSlice(y.recvU[c], p.slice, y.currentTime).state);
    } else {
      RefusedTook(y, p, h, ReceivedInvalidChannelId(c));
    }
  }

  /** Any data packet the peer sent. */
  lemma HandleData(y: Endpoint, p: Packet, h: History)
    requires WfStats(y.stats) && ReceiverOk(y, h) && Alive(y) && Genuine(h, p) && !p.Ack?
    ensures Took(y, Handle(y, p), p, h)
  {
    hide Took, Handle, ReceiverOk;
    if p.SmallReliable? {
      HandleSmallReliable(y, p, h);
    } else if p.ReliableSlice? {
      HandleReliableSlice(y, p, h);
    } else if p.SmallUnreliable? {
      HandleSmallUnreliable(y, p, h);
    } else {
      HandleUnreliableSlice(y, p, h);
    }
  }

  // ---------------------------------------------------------------- acknowledgement packets

  lemma AckedLargestStaysOk(rs: seq<Range>, largest: nat, processed: set<nat>)
    requires Normal(rs) && AcksOk(rs, processed) && (rs != [] ==> rs[|rs| - 1].end <= VARINT_LIMIT)
    ensures var r := AckedLargest(rs, largest);
      Normal(r) && AcksOk(r, processed) && (r != [] ==> r[|r| - 1].end <= VARINT_LIMIT)
  {
    AckedLargestRefinesSet(rs, largest);
    AckedLargestEnd(rs, largest);
  }

  lemma {:induction false} AckedLargestEnd(rs: seq<Range>, largest: nat)
    ensures var r := AckedLargest(rs, largest);
      r != [] ==> rs != [] && r[|r| - 1].end == rs[|rs| - 1].end
    decreases |rs|
  {
    if rs != [] {
      AckedLargestEnd(rs[1..], largest);
    }
  }

  /** What acknowledgements leave alone at the endpoint that receives them. */
  ghost predicate SameReceiving(y: Endpoint, r: Endpoint) {
    && r.recvR == y.recvR && r.recvU == y.recvU && r.currentTime == y.currentTime
    && r.packetSequence == y.packetSequence && r.sendOrder == y.sendOrder && r.sendU == y.sendU
    && (Alive(r) ==> Alive(y))
  }

  ghost predicate PendingFine(rs: seq<Range>, processed: set<nat>) {
    Normal(rs) && AcksOk(rs, processed) && (rs != [] ==> rs[|rs| - 1].end <= VARINT_LIMIT)
  }

  lemma AckOneReceiving(y: Endpoint, s: nat, processed: set<nat>)
    requires WfStats(y.stats) && PendingFine(y.pendingAcks, processed)
    ensures var r := AckOne(y, s); SameReceiving(y, r) && PendingFine(r.pendingAcks, processed)
  {
    hide PendingFine, AckedLargest, AckMessages, RS.AckSlice;
    if s in y.sentPackets && y.sentPackets[s].info.AckInfo? {
      AckedLargestFine(y.pendingAcks, y.sentPackets[s].info.largestAcked, processed);
    }
  }

  lemma AckedLargestFine(rs: seq<Range>, largest: nat, processed: set<nat>)
    requires PendingFine(rs, processed)
    ensures PendingFine(AckedLargest(rs, largest), processed)
  {
    AckedLargestStaysOk(rs, largest, processed);
  }

  lemma {:induction false} AckAllReceiving(y: Endpoint, ss: seq<nat>, processed: set<nat>)
    requires WfStats(y.stats) && PendingFine(y.pendingAcks, processed)
    ensures var r := AckAll(y, ss); SameReceiving(y, r) && PendingFine(r.pendingAcks, processed)
  {
    hide PendingFine, AckOne;
    if ss != [] {
      AckAllReceiving(y, ss[..|ss| - 1], processed);
      AckOneReceiving(AckAll(y, ss[..|ss| - 1]), ss[|ss| - 1], processed);
    }
  }

  // ---------------------------------------------------------------- delivery of a packet

  lemma AddAckFine(rs: seq<Range>, s: nat, processed: set<nat>)
    requires PendingFine(rs, processed) && s < VARINT_LIMIT
    ensures PendingFine(AddAck(rs, s), processed + {s})
  {
    AddAckRefinesSet(rs, s);
    AddAckEnd(rs, s);
  }

  lemma {:induction false} PlaceEnd(rs: seq<Range>, s: nat)
    requires Normal(rs)
    ensures Place(rs, s) != []
    ensures var r := Place(rs, s);
      r[|r| - 1].end == s + 1 || (rs != [] && r[|r| - 1].end == rs[|rs| - 1].end)
    decreases |rs|
  {
    hide Normal;
    if rs != [] {
      PlaceEnd(rs[1..], s) by { NormalTail(rs); }
    }
  }

  lemma AddAckEnd(rs: seq<Range>, s: nat)
    requires Normal(rs)
    ensures var r := AddAck(rs, s);
      r != [] ==> r[|r| - 1].end == s + 1 || (rs != [] && r[|r| - 1].end == rs[|rs| - 1].end)
  {
    hide Normal, Place;
    PlaceEnd(rs, s);
  }

  function Note(h: History, i: nat, taken: bool): History {
    if taken then h.(processed := h.processed + {i}) else h
  }

  /** The history's other parts do not change when a packet is noted as processed. */
  lemma NoteFrame(x: Endpoint, y: Endpoint, xy: Link, h: History, i: nat, taken: bool)
    ensures SenderOk(x, xy, h) ==> SenderOk(x, xy, Note(h, i, taken))
    ensures ReceiverOk(y, h) ==> ReceiverOk(y, Note(h, i, taken))
  {
    hide RR.RecvInv, U.URecvInv, OutOk, Holds, UHolds, Encodable, Encode, InfoOf;
    if taken && SenderOk(x, xy, h) {
      forall k | 0 <= k < |xy.log|
        ensures Genuine(Note(h, i, taken), xy.log[k])
      {
        assert Genuine(h, xy.log[k]);
      }
    }
  }

  lemma NoteProcessed(xy: Link, recvR: map<byte, RR.RecvState>, h: History, i: nat)
    requires ProcessedOk(xy, recvR, h.processed) && i < |xy.wire| <= |xy.log| && Absorbed(recvR, xy.log[i])
    ensures ProcessedOk(xy, recvR, h.processed + {i})
  {
    hide Absorbed;
  }

  lemma AckLogGrows(log: seq<Packet>, processed: set<nat>, more: set<nat>)
    requires AckLogOk(log, processed) && processed <= more
    ensures AckLogOk(log, more)
  {
    hide Covers;
  }

  /** Puts the parts together after `y` has looked at packet `i`. */
  lemma AssembleDelivery(x: Endpoint, y: Endpoint, y': Endpoint, xy: Link, yx: Link, h: History, i: nat)
    requires DirInv(x, y, xy, yx, h) && i < |xy.wire|
    requires ReceiverOk(y', h) && RecvGrows(y.recvR, y'.recvR)
    requires Alive(y') ==> Absorbed(y'.recvR, xy.log[i])
    requires Normal(y'.pendingAcks)
    requires y'.pendingAcks != [] ==> y'.pendingAcks[|y'.pendingAcks| - 1].end <= VARINT_LIMIT
    requires Alive(y') ==> AcksOk(y'.pendingAcks, h.processed + {i})
    ensures DirInv(x, y', xy, yx, Note(h, i, Alive(y')))
  {
    assert |xy.wire| <= |xy.log|;
    hide SenderOk, ReceiverOk, ProcessedOk, KnowledgeOk, RecvGrows, Absorbed, AcksOk, AckLogOk, Normal;
    NoteFrame(x, y', xy, h, i, Alive(y'));
    GrowsProcessed(xy, y.recvR, y'.recvR, h.processed);
    GrowsKnowledge(x.sendR, y.recvR, y'.recvR);
    if Alive(y') {
      NoteProcessed(xy, y'.recvR, h, i);
      AckLogGrows(yx.log, h.processed, h.processed + {i});
    }
  }

  /** `y` processes a payload from the network: a fresh one, a duplicate or an old one. */
  lemma DeliverReceives(x: Endpoint, y: Endpoint, xy: Link, yx: Link, h: History, i: nat)
    requires DirInv(x, y, xy, yx, h) && i < |xy.wire| && WfStats(y.stats)
    ensures var y' := ProcessPacket(y, xy.wire[i]);
      DirInv(x, y', xy, yx, Note(h, i, Alive(y')))
  {
    hide ProcessPacket, SenderOk, ReceiverOk, ProcessedOk, KnowledgeOk, AcksOk, AckLogOk, Normal, Decode, Genuine,
      RecvGrows, Absorbed;
    var y' := ProcessPacket(y, xy.wire[i]);
    if Alive(y) {
      SentPacket(x, xy, h, i);
      PendingPart(y, yx, h);
      if Decode(xy.wire[i]).Ok? {
        TakesPacket(y, xy.wire[i], xy.log[i], h, i);
      } else {
        RefusesPayload(y, xy.wire[i]);
        GrowsSelf(y.recvR);
        SameReceiver(y, y', h);
      }
      AssembleDelivery(x, y, y', xy, yx, h, i);
    } else {
      IgnoresPayload(y, xy.wire[i]);
    }
  }

  lemma SentPacket(x: Endpoint, xy: Link, h: History, i: nat)
    requires SenderOk(x, xy, h) && i < |xy.wire|
    ensures |xy.wire| <= |xy.log| && Genuine(h, xy.log[i]) && xy.log[i].sequence == i < VARINT_LIMIT
    ensures var d := Decode(xy.wire[i]); d == Ok(xy.log[i]) || d == Err(InvalidNumSlices)
  {
    hide Genuine, Decode, Encode, SendROk, SendUOk, TrackOk, ChannelsOk;
    GenuineDecodes(h, xy.log[i]);
  }

  lemma PendingPart(y: Endpoint, yx: Link, h: History)
    requires PendingOk(y, yx, h) && Alive(y)
    ensures PendingFine(y.pendingAcks, h.processed)
  {
    hide Normal, AcksOk, AckLogOk;
  }

  lemma SameReceiver(y: Endpoint, y': Endpoint, h: History)
    requires ReceiverOk(y, h) && y'.recvR == y.recvR && y'.recvU == y.recvU && y'.currentTime == y.currentTime
    ensures ReceiverOk(y', h)
  {
    hide RecvROk, RecvUOk;
  }

  lemma RefusesPayload(y: Endpoint, bytes: seq<byte>)
    requires WfStats(y.stats) && Alive(y) && Decode(bytes).Err?
    ensures var y' := ProcessPacket(y, bytes);
      !Alive(y') && y'.recvR == y.recvR && y'.recvU == y.recvU && y'.currentTime == y.currentTime &&
      y'.pendingAcks == y.pendingAcks
  {
    hide Decode;
  }

  lemma IgnoresPayload(y: Endpoint, bytes: seq<byte>)
    requires WfStats(y.stats) && !Alive(y)
    ensures ProcessPacket(y, bytes) == y
  {
    hide Decode;
  }

  /** What becomes of the receiving side when packet `i` is decoded. */
  lemma TakesPacket(y: Endpoint, bytes: seq<byte>, p: Packet, h: History, i: nat)
    requires WfStats(y.stats) && Alive(y) && ReceiverOk(y, h) && PendingFine(y.pendingAcks, h.processed)
    requires Decode(bytes) == Ok(p) && p.sequence == i < VARINT_LIMIT && Genuine(h, p)
    ensures var y' := ProcessPacket(y, bytes);
      && ReceiverOk(y', h) && RecvGrows(y.recvR, y'.recvR)
      && (Alive(y') ==> Absorbed(y'.recvR, p))
      && PendingFine(y'.pendingAcks, h.processed + {i})
  {
    hide Decode, ReceiverOk, PendingFine, Genuine, RecvGrows, Handle, AddAck;
    AddAckFine(y.pendingAcks, i, h.processed);
    var noted := y.(pendingAcks := AddAck(y.pendingAcks, i));
    SameReceiver(y, noted, h);
    if p.Ack? {
      AckReceives(noted, p, h, h.processed + {i});
    } else {
      HandleData(noted, p, h);
    }
  }

  lemma AckReceives(y: Endpoint, p: Packet, h: History, processed: set<nat>)
    requires WfStats(y.stats) && ReceiverOk(y, h) && PendingFine(y.pendingAcks, processed) && p.Ack? && Genuine(h, p)
    ensures var y' := Handle(y, p);
      ReceiverOk(y', h) && RecvGrows(y.recvR, y'.recvR) && PendingFine(y'.pendingAcks, processed)
  {
    hide ReceiverOk, PendingFine, AckAll, NewAcks, RecvGrows;
    AckAllReceiving(y, NewAcks(y.sentPackets, p.ackRanges), processed);
    SameReceiver(y, Handle(y, p), h);
    GrowsSelf(y.recvR);
  }

  // ---------------------------------------------------------------- other steps of the receiver

  /** Steps that touch none of the receiving state. */
  lemma ReceiverFrame(x: Endpoint, y: Endpoint, y': Endpoint, xy: Link, yx: Link, h: History)
    requires DirInv(x, y, xy, yx, h)
    requires y'.recvR == y.recvR && y'.recvU == y.recvU && y'.currentTime == y.currentTime
    requires y'.pendingAcks == y.pendingAcks && (Alive(y') ==> Alive(y))
    ensures DirInv(x, y', xy, yx, h)
  {
    hide SenderOk, RecvROk, RecvUOk, ProcessedOk, KnowledgeOk, AcksOk, AckLogOk;
  }

  lemma LaterUnreliable(r: U.URecv, sent: seq<Message>, sliced: seq<Message>, now: Time, later: Time)
    requires U.URecvInv(r, sent, sliced, now) && now <= later
    ensures U.URecvInv(r, sent, sliced, later)
  {
    hide Within, Slicing.Partial, RR.SliceBytes;
  }

  lemma DiscardLater(r: U.URecv, sent: seq<Message>, sliced: seq<Message>, now: Time, later: Time)
    requires U.URecvInv(r, sent, sliced, now) && now <= later && RR.SliceBytes(r.slices) <= r.memoryUsage
    ensures U.URecvInv(U.Discard(r, later), sent, sliced, later)
  {
    hide U.URecvInv, U.Discard;
    LaterUnreliable(r, sent, sliced, now, later);
    U.DiscardInv(r, sent, sliced, later);
  }

  lemma UpdateRecvU(y: Endpoint, h: History, duration: Time)
    requires WfEndpoint(y) && RecvUOk(y.recvR, y.recvU, h, y.currentTime)
    ensures var y' := Update(y, duration); RecvUOk(y'.recvR, y'.recvU, h, y'.currentTime)
  {
    hide U.URecvInv, U.Discard, Within, RS.WfSend, U.WfUSend, RR.MemoryExact, Normal, Exists, Expire, UpdateStats;
    var y' := Update(y, duration);
    forall c | c in y'.recvU
      ensures U.URecvInv(y'.recvU[c], At(h.usent, c), At(h.sliced, c), y'.currentTime)
      ensures c !in y'.recvR ==> Within(At(h.out, c), At(h.usent, c))
    {
      DiscardLater(y.recvU[c], At(h.usent, c), At(h.sliced, c), y.currentTime, y'.currentTime);
    }
  }

  /** Time passes at the receiver. */
  lemma UpdateReceives(x: Endpoint, y: Endpoint, xy: Link, yx: Link, h: History, duration: Time)
    requires DirInv(x, y, xy, yx, h) && WfEndpoint(y)
    ensures DirInv(x, Update(y, duration), xy, yx, h)
  {
    hide WfEndpoint, SenderOk, RecvROk, RecvUOk, ProcessedOk, KnowledgeOk, AcksOk, AckLogOk;
    UpdateRecvU(y, h, duration);
  }

  // ---------------------------------------------------------------- receive_message

  /** What `receive_message` adds to the history. */
  ghost function NoteReceived(h: History, y: Endpoint, c: byte): History
    requires WfEndpoint(y) && (c in y.recvR || c in y.recvU)
  {
    var t := ReceiveMessage(y, c);
    if t.message.None? then h
    else
      var out := h.out[c := At(h.out, c) + [t.message.value]];
      if c in y.recvR then
        h.(out := out, delivered := h.delivered[c := At(h.delivered, c) + [NextDelivered(y.recvR[c])]])
      else h.(out := out)
  }

  /** The id that `receive_message` hands out. */
  ghost function NextDelivered(r: RR.RecvState): nat {
    if RR.NextId(r).Some? then RR.NextId(r).value else 0
  }

  lemma ChannelReceives(r: RR.RecvState, sent: seq<Message>, delivered: seq<nat>, out: seq<Message>)
    requires RR.RecvInv(r, sent, delivered) && OutOk(out, delivered, sent)
    ensures RR.NextId(r).Some? ==> |r.messages[RR.NextId(r).value]| <= r.memoryUsage
    ensures var t := RR.Receive(r);
      && RR.Grows(r, t.state)
      && (t.message.Some? ==>
            && RR.RecvInv(t.state, sent, delivered + [NextDelivered(r)])
            && OutOk(out + [t.message.value], delivered + [NextDelivered(r)], sent))
      && (t.message.None? ==> t.state == r)
  {
    hide RR.RecvInv, RR.Grows, RR.Receive;
    RR.ReceiveInv(r, sent, delivered);
  }

  lemma HandOutReliable(
    recvR: map<byte, RR.RecvState>, recvU: map<byte, U.URecv>, h: History, now: Time, c: byte, r: RR.RecvState,
    out: seq<Message>, delivered: seq<nat>)
    requires RecvROk(recvR, h) && RecvUOk(recvR, recvU, h, now) && c in recvR
    requires RR.RecvInv(r, At(h.sent, c), delivered) && OutOk(out, delivered, At(h.sent, c))
    ensures var h' := h.(out := h.out[c := out], delivered := h.delivered[c := delivered]);
      RecvROk(recvR[c := r], h') && RecvUOk(recvR[c := r], recvU, h', now)
  {
    hide RR.RecvInv, U.URecvInv, OutOk, Within;
  }

  lemma ReceiveReliable(y: Endpoint, h: History, c: byte)
    requires ReceiverOk(y, h) && WfEndpoint(y) && Alive(y) && c in y.recvR
    ensures var y' := ReceiveMessage(y, c).endpoint;
      && ReceiverOk(y', NoteReceived(h, y, c))
      && RecvGrows(y.recvR, y'.recvR)
  {
    hide WfEndpoint, RR.RecvInv, RR.Grows, RR.Receive, OutOk, RecvUOk, NextDelivered;
    var r := y.recvR[c];
    ChannelReceives(r, At(h.sent, c), At(h.delivered, c), At(h.out, c));
    var t := RR.Receive(r);
    GrowsOne(y.recvR, c, t.state);
    if t.message.Some? {
      HandOutReliable(y.recvR, y.recvU, h, y.currentTime, c, t.state,
                      At(h.out, c) + [t.message.value], At(h.delivered, c) + [NextDelivered(r)]);
    } else {
      assert y.recvR[c := r] == y.recvR;
    }
  }

  lemma UChannelReceives(r: U.URecv, usent: seq<Message>, sliced: seq<Message>, now: Time, out: seq<Message>)
    requires U.URecvInv(r, usent, sliced, now) && Within(out, usent) && (r.queue != [] ==> |r.queue[0]| <= r.memoryUsage)
    ensures var t := U.UReceive(r);
      && U.URecvInv(t.0, usent, sliced, now)
      && (t.1.Some? ==> Within(out + [t.1.value], usent))
  {
    hide U.URecvInv, U.UReceive, Within;
    U.UReceiveInv(r, usent, sliced, now);
    if U.UReceive(r).1.Some? {
      AppendStaysWithin(out, U.UReceive(r).1.value, usent);
    }
  }

  lemma HandOutUnreliable(
    recvR: map<byte, RR.RecvState>, recvU: map<byte, U.URecv>, h: History, now: Time, c: byte, r: U.URecv,
    out: seq<Message>)
    requires RecvROk(recvR, h) && RecvUOk(recvR, recvU, h, now) && c !in recvR && c in recvU
    requires U.URecvInv(r, At(h.usent, c), At(h.sliced, c), now) && Within(out, At(h.usent, c))
    ensures var h' := h.(out := h.out[c := out]);
      RecvROk(recvR, h') && RecvUOk(recvR, recvU[c := r], h', now)
  {
    hide RR.RecvInv, U.URecvInv, OutOk, Within;
  }

  lemma ReceiveUnreliable(y: Endpoint, h: History, c: byte)
    requires ReceiverOk(y, h) && WfEndpoint(y) && Alive(y) && c !in y.recvR && c in y.recvU
    ensures ReceiverOk(ReceiveMessage(y, c).endpoint, NoteReceived(h, y, c))
  {
    UReceiveMemory(y.recvU[c]);
    assert U.URecvInv(y.recvU[c], At(h.usent, c), At(h.sliced, c), y.currentTime) && Within(At(h.out, c), At(h.usent, c));
    hide WfEndpoint, RecvROk, U.URecvInv, Within, U.UReceive, At;
    UChannelReceives(y.recvU[c], At(h.usent, c), At(h.sliced, c), y.currentTime, At(h.out, c));
    var t := U.UReceive(y.recvU[c]);
    if t.1.Some? {
      HandOutUnreliable(y.recvR, y.recvU, h, y.currentTime, c, t.0, At(h.out, c) + [t.1.value]);
      hide RecvUOk;
    } else {
      ReplaceRecvU(y, h, c, t.0);
      hide RecvUOk;
    }
  }

  /** `receive_message`: nothing is lost, and what comes out is what was sent. */
  lemma ReceiveReceives(x: Endpoint, y: Endpoint, xy: Link, yx: Link, h: History, c: byte)
    requires DirInv(x, y, xy, yx, h) && WfEndpoint(y) && (c in y.recvR || c in y.recvU)
    ensures DirInv(x, ReceiveMessage(y, c).endpoint, xy, yx, NoteReceived(h, y, c))
  {
    hide WfEndpoint, ReceiveMessage, NoteReceived, ReceiverOk, SenderOk, ProcessedOk, KnowledgeOk, RecvGrows, AcksOk,
      AckLogOk, Normal;
    var y', h' := ReceiveMessage(y, c).endpoint, NoteReceived(h, y, c);
    ReceiveOnly(y, h, c);
    if Alive(y) {
      if c in y.recvR {
        ReceiveReliable(y, h, c);
      } else {
        ReceiveUnreliable(y, h, c);
        GrowsSelf(y.recvR);
      }
      ReceivedSender(x, xy, h, h');
      GrowsProcessed(xy, y.recvR, y'.recvR, h.processed);
      GrowsKnowledge(x.sendR, y.recvR, y'.recvR);
    }
  }

  /** What `receive_message` leaves alone. */
  lemma ReceiveOnly(y: Endpoint, h: History, c: byte)
    requires WfEndpoint(y) && (c in y.recvR || c in y.recvU)
    ensures var y', h' := ReceiveMessage(y, c).endpoint, NoteReceived(h, y, c);
      && y'.status == y.status && y'.pendingAcks == y.pendingAcks
      && (c !in y.recvR ==> y'.recvR == y.recvR)
      && h' == h.(out := h'.out, delivered := h'.delivered)
      && (!Alive(y) ==> y' == y && h' == h)
  {
    hide WfEndpoint, RR.Receive, U.UReceive, At, NextDelivered;
  }

  lemma ReceivedSender(x: Endpoint, xy: Link, h: History, h': History)
    requires SenderOk(x, xy, h) && h' == h.(out := h'.out, delivered := h'.delivered)
    ensures SenderOk(x, xy, h')
  {
    hide Holds, UHolds, TrackOk, ChannelsOk, WireOk, Consecutive;
    forall i | 0 <= i < |xy.log|
      ensures Genuine(h', xy.log[i])
    {
      assert Genuine(h, xy.log[i]);
    }
  }
}
