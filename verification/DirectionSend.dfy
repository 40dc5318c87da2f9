/** Steps of the sending endpoint keep the invariant of a direction. */
module DirectionSend {
  import opened Common
  import opened AckRanges
  import opened Wire
  import opened Stats
  import opened Connection
  import opened Direction
  import Slicing
  import RS = ReliableSend
  import RR = ReliableReceive
  import U = Unreliable
  import DR = DirectionReceive

  // ---------------------------------------------------------------- which packets an Ack removes

  ghost predicate Increasing(s: seq<nat>) {
    forall i, j :: 0 <= i < j < |s| ==> s[i] < s[j]
  }

  lemma {:induction false} KeysInSpec(sent: map<nat, PacketSent>, lo: nat, hi: nat)
    ensures Increasing(KeysIn(sent, lo, hi))
    ensures forall k :: k in KeysIn(sent, lo, hi) <==> k in sent && lo <= k < hi
    decreases hi
  {
    if lo < hi {
      KeysInSpec(sent, lo, hi - 1);
      var last := if hi - 1 in sent then [hi - 1] else [];
      ConcatIncreasing(KeysIn(sent, lo, hi - 1), last, hi - 1);
    }
  }

  /**
   For ranges in normal form the collected sequences are strictly increasing, hence
   distinct, and they are exactly the tracked sequences that the ranges cover.
   */
  lemma {:induction false} NewAcksSpec(sent: map<nat, PacketSent>, rs: seq<Range>)
    requires Normal(rs)
    ensures Increasing(NewAcks(sent, rs))
    ensures forall k :: k in NewAcks(sent, rs) <==> k in sent && Covers(rs, k)
  {
    if rs != [] {
      var n := |rs| - 1;
      NewAcksSpec(sent, rs[..n]);
      KeysInSpec(sent, rs[n].start, rs[n].end);
      var a, b := NewAcks(sent, rs[..n]), KeysIn(sent, rs[n].start, rs[n].end);
      hide KeysIn;
      forall k
        ensures Covers(rs, k) <==> Covers(rs[..n], k) || InRange(rs[n], k)
      {
        CoversSnoc(rs, k);
      }
      forall k | k in a
        ensures k < rs[n].start
      {
        assert Covers(rs[..n], k);
      }
      ConcatIncreasing(a, b, rs[n].start);
    }
  }

  lemma ConcatIncreasing(a: seq<nat>, b: seq<nat>, pivot: nat)
    requires Increasing(a) && Increasing(b)
    requires (forall k :: k in a ==> k < pivot) && (forall k :: k in b ==> pivot <= k)
    ensures Increasing(a + b)
  {
    forall i, j | 0 <= i < j < |a + b|
      ensures (a + b)[i] < (a + b)[j]
    {
      if i < |a| <= j {
        assert a[i] in a && b[j - |a|] in b;
      }
    }
  }

  lemma CoversSnoc(rs: seq<Range>, k: nat)
    requires rs != []
    ensures Covers(rs, k) <==> Covers(rs[..|rs| - 1], k) || InRange(rs[|rs| - 1], k)
  {
    var n := |rs| - 1;
    if Covers(rs, k) {
      var i :| 0 <= i < |rs| && rs[i].start <= k < rs[i].end;
      assert i < n ==> rs[..n][i] == rs[i];
    }
    if Covers(rs[..n], k) {
      var i :| 0 <= i < n && rs[..n][i].start <= k < rs[..n][i].end;
      assert rs[i] == rs[..n][i];
    }
  }

  // ---------------------------------------------------------------- one channel learns of arrivals

  /** A small message is acknowledged. */
  lemma AckMessageOk(s: RS.SendState, c: byte, sent: seq<Message>, recvR: map<byte, RR.RecvState>, id: nat)
    requires Holds(s, c, sent) && Known(s, recvR, c)
    requires id < |sent| && |sent[id]| <= SLICE_SIZE && AcceptedBy(recvR, c, id)
    ensures var o := RS.AckMessage(s, id);
      o.Acked? && Holds(o.state, c, sent) && Known(o.state, recvR, c)
  {
    assert id in s.unacked ==> s.unacked[id].Small?;
    RS.AckMessageWf(s, id);
    hide RS.WfSend, AcceptedBy, GotSliceBy, MarkedAcked;
  }

  /** `id` is a small message that the receiver has accepted. */
  ghost predicate SmallArrived(recvR: map<byte, RR.RecvState>, c: byte, sent: seq<Message>, id: nat) {
    id < |sent| && |sent[id]| <= SLICE_SIZE && AcceptedBy(recvR, c, id)
  }

  lemma {:induction false} AckMessagesOk(
    s: RS.SendState, c: byte, sent: seq<Message>, recvR: map<byte, RR.RecvState>, ids: seq<nat>)
    requires Holds(s, c, sent) && Known(s, recvR, c)
    requires forall k :: 0 <= k < |ids| ==> SmallArrived(recvR, c, sent, ids[k])
    ensures var o := AckMessages(s, ids);
      o.Acked? && Holds(o.state, c, sent) && Known(o.state, recvR, c)
    decreases |ids|
  {
    hide Holds, Known, AcceptedBy, RS.AckMessage;
    if ids != [] {
      assert SmallArrived(recvR, c, sent, ids[0]);
      AckMessageOk(s, c, sent, recvR, ids[0]);
      AckMessagesOk(RS.AckMessage(s, ids[0]).state, c, sent, recvR, ids[1..]);
    }
  }

  lemma AllSlicesGot(recvR: map<byte, RR.RecvState>, c: byte, id: nat, m: Message)
    requires 0 < |m| && c in recvR && (id in recvR[c].slices ==> Slicing.Partial(recvR[c].slices[id], m))
    requires forall i :: 0 <= i < Slicing.NumSlices(|m|) ==> GotSliceBy(recvR, c, id, i)
    ensures AcceptedBy(recvR, c, id)
  {
    if !RR.Accepted(recvR[c], id) {
      assert GotSliceBy(recvR, c, id, 0);
      var received := recvR[c].slices[id].received;
      assert AllTrue(received) by {
        forall i | 0 <= i < |received|
          ensures received[i]
        {
          assert GotSliceBy(recvR, c, id, i);
        }
      }
      CountTrueAll(received);
    }
  }

  /** A slice is acknowledged; if it was the last one, the receiver has the whole message. */
  lemma AckSliceOk(
    s: RS.SendState, c: byte, sent: seq<Message>, recvR: map<byte, RR.RecvState>, id: nat, index: nat)
    requires Holds(s, c, sent) && Known(s, recvR, c)
    requires id < |sent| && |sent[id]| > SLICE_SIZE && index < Slicing.NumSlices(|sent[id]|)
    requires GotSliceBy(recvR, c, id, index)
    requires id in recvR[c].slices ==> Slicing.Partial(recvR[c].slices[id], sent[id])
    ensures var o := RS.AckSlice(s, id, index);
      o.Acked? && Holds(o.state, c, sent) && Known(o.state, recvR, c)
  {
    assert id in s.unacked ==> s.unacked[id].Sliced? && index < s.unacked[id].numSlices;
    RS.AckSliceWf(s, id, index);
    var s' := RS.AckSlice(s, id, index).state;
    AckSliceFrame(s, id, index);
    if id in s.unacked {
      var acked := s.unacked[id].acked;
      forall i | 0 <= i < |acked| && acked[index := true][i]
        ensures GotSliceBy(recvR, c, id, i)
      {
        assert i != index ==> MarkedAcked(s.unacked[id], i);
      }
      if id !in s'.unacked {
        AllSlicesGot(recvR, c, id, sent[id]);
      }
    }
    hide RS.WfSend, RS.AckSlice, RS.WfUnacked, AcceptedBy, GotSliceBy, Slicing.Partial;
  }

  lemma AckSliceFrame(s: RS.SendState, id: nat, index: nat)
    requires RS.AckSlice(s, id, index).Acked?
    ensures var s' := RS.AckSlice(s, id, index).state;
      s'.channelId == s.channelId && s'.maxMemory == s.maxMemory && s'.nextId == s.nextId
  {
  }

  // ---------------------------------------------------------------- one packet is acknowledged

  /** The sender's side and its knowledge about `y`. */
  ghost predicate Informed(x: Endpoint, y: Endpoint, xy: Link, h: History) {
    SenderOk(x, xy, h) && KnowledgeOk(x.sendR, y.recvR)
  }

  lemma ReplaceSendR(x: Endpoint, y: Endpoint, xy: Link, h: History, c: byte, s: RS.SendState)
    requires Informed(x, y, xy, h) && c in x.sendR
    requires Holds(s, c, At(h.sent, c)) && Known(s, y.recvR, c)
    ensures Informed(x.(sendR := x.sendR[c := s]), y, xy, h)
  {
    hide LinkOk, TrackOk, SendUOk, Holds, Known;
    assert x.sendR[c := s].Keys == x.sendR.Keys;
  }

  lemma ApplyMessagesAck(x: Endpoint, y: Endpoint, xy: Link, h: History, p: Packet)
    requires Informed(x, y, xy, h) && Alive(x)
    requires p.SmallReliable? && Genuine(h, p) && Absorbed(y.recvR, p) && p.channelId in x.sendR
    ensures var r := ApplyAckInfo(x, InfoOf(p)); Informed(r, y, xy, h) && Alive(r)
  {
    var c := p.channelId;
    var ids := Ids(p.entries);
    forall k | 0 <= k < |ids|
      ensures SmallArrived(y.recvR, c, At(h.sent, c), ids[k])
    {
      assert p.entries[k] in p.entries;
      assert GenuineEntry(At(h.sent, c), p.entries[k]);
    }
    hide LinkOk, TrackOk, SendUOk, ChannelsOk, Holds, Known, SmallArrived, AckMessages;
    AckMessagesOk(x.sendR[c], c, At(h.sent, c), y.recvR, ids);
    ReplaceSendR(x, y, xy, h, c, AckMessages(x.sendR[c], ids).state);
  }

  lemma OpenIsPartial(recvR: map<byte, RR.RecvState>, h: History, c: byte, id: nat)
    requires RecvROk(recvR, h) && c in recvR && id in recvR[c].slices
    ensures id < |At(h.sent, c)| && Slicing.Partial(recvR[c].slices[id], At(h.sent, c)[id])
  {
    hide Slicing.Partial, RR.MemoryExact, RR.Ledger, OutOk;
  }

  lemma SliceFacts(h: History, p: Packet)
    requires p.ReliableSlice? && Genuine(h, p)
    ensures var sent := At(h.sent, p.channelId);
      && p.slice.messageId < |sent| && |sent[p.slice.messageId]| > SLICE_SIZE
      && p.slice.sliceIndex < Slicing.NumSlices(|sent[p.slice.messageId]|)
  {
  }

  lemma ChannelAcksSlice(s: RS.SendState, recvR: map<byte, RR.RecvState>, h: History, p: Packet)
    requires RecvROk(recvR, h) && p.ReliableSlice? && Genuine(h, p) && Absorbed(recvR, p)
    requires Holds(s, p.channelId, At(h.sent, p.channelId)) && Known(s, recvR, p.channelId)
    ensures var o := RS.AckSlice(s, p.slice.messageId, p.slice.sliceIndex);
      o.Acked? && Holds(o.state, p.channelId, At(h.sent, p.channelId)) && Known(o.state, recvR, p.channelId)
  {
    var c, sl := p.channelId, p.slice;
    assert c in recvR && GotSliceBy(recvR, c, sl.messageId, sl.sliceIndex);
    hide Holds, Known, GotSliceBy, RS.AckSlice, RecvROk, Slicing.Partial, Genuine, Absorbed, Slicing.NumSlices;
    SliceFacts(h, p);
    if sl.messageId in recvR[c].slices {
      OpenIsPartial(recvR, h, c, sl.messageId);
    }
    AckSliceOk(s, c, At(h.sent, c), recvR, sl.messageId, sl.sliceIndex);
  }

  lemma ApplySliceAck(x: Endpoint, y: Endpoint, xy: Link, h: History, p: Packet)
    requires Informed(x, y, xy, h) && Alive(x) && RecvROk(y.recvR, h)
    requires p.ReliableSlice? && Genuine(h, p) && Absorbed(y.recvR, p) && p.channelId in x.sendR
    ensures var r := ApplyAckInfo(x, InfoOf(p)); Informed(r, y, xy, h) && Alive(r)
  {
    hide LinkOk, TrackOk, SendUOk, ChannelsOk, Holds, Known, RS.AckSlice, RecvROk, Genuine, Absorbed;
    var c, sl := p.channelId, p.slice;
    ChannelAcksSlice(x.sendR[c], y.recvR, h, p);
    ReplaceSendR(x, y, xy, h, c, RS.AckSlice(x.sendR[c], sl.messageId, sl.sliceIndex).state);
  }

  lemma ForgetTracked(x: Endpoint, y: Endpoint, xy: Link, h: History, s: nat, stats: StatsState)
    requires Informed(x, y, xy, h)
    ensures Informed(x.(sentPackets := x.sentPackets - {s}, stats := stats), y, xy, h)
  {
    hide LinkOk, SendUOk, SendROk, ChannelsOk, KnowledgeOk, InfoOf;
  }

  /** What the invariant says about a tracked packet. */
  lemma TrackedPacket(x: Endpoint, y: Endpoint, xy: Link, h: History, s: nat)
    requires Informed(x, y, xy, h) && s in x.sentPackets
    ensures s < |xy.log|
    ensures var p := xy.log[s];
      && Genuine(h, p) && x.sentPackets[s].info == InfoOf(p)
      && (p.SmallReliable? || p.ReliableSlice? ==> p.channelId in x.sendR)
  {
    hide Genuine, InfoOf, SendROk, SendUOk, KnowledgeOk, Encodable, Encode;
  }

  lemma ApplyInfoSends(x: Endpoint, y: Endpoint, xy: Link, h: History, p: Packet)
    requires Informed(x, y, xy, h) && Alive(x) && RecvROk(y.recvR, h)
    requires Genuine(h, p) && Absorbed(y.recvR, p)
    requires p.SmallReliable? || p.ReliableSlice? ==> p.channelId in x.sendR
    ensures var r := ApplyAckInfo(x, InfoOf(p));
      Informed(r, y, xy, h) && Alive(r) && r.sentPackets == x.sentPackets
  {
    hide Informed, RecvROk, Genuine, Absorbed, Ids, AckMessages, RS.AckSlice;
    if p.SmallReliable? {
      ApplyMessagesAck(x, y, xy, h, p);
    } else if p.ReliableSlice? {
      ApplySliceAck(x, y, xy, h, p);
    } else if InfoOf(p).AckInfo? {
      PendingIrrelevant(x, y, xy, h, AckedLargest(x.pendingAcks, InfoOf(p).largestAcked));
    }
  }

  /** Acknowledging a processed packet: no panic, and nothing is forgotten that has not arrived. */
  lemma AckOneSends(x: Endpoint, y: Endpoint, xy: Link, h: History, s: nat)
    requires Informed(x, y, xy, h) && Alive(x) && WfStats(x.stats)
    requires RecvROk(y.recvR, h) && ProcessedOk(xy, y.recvR, h.processed)
    requires s in x.sentPackets && s in h.processed
    ensures var r := AckOne(x, s);
      Informed(r, y, xy, h) && Alive(r) && r.sentPackets == x.sentPackets - {s}
  {
    hide Informed, RecvROk, Genuine, Absorbed, CountAcked, WfStats, ApplyAckInfo, InfoOf;
    TrackedPacket(x, y, xy, h, s);
    var stats := CountAcked(x.stats, x.sentPackets[s].sentAt, x.currentTime);
    ForgetTracked(x, y, xy, h, s, stats);
    ApplyInfoSends(x.(sentPackets := x.sentPackets - {s}, stats := stats), y, xy, h, xy.log[s]);
  }

  lemma PendingIrrelevant(x: Endpoint, y: Endpoint, xy: Link, h: History, rs: seq<Range>)
    requires Informed(x, y, xy, h)
    ensures Informed(x.(pendingAcks := rs), y, xy, h)
  {
    hide LinkOk, TrackOk, SendUOk, SendROk, ChannelsOk, KnowledgeOk;
  }

  /** All sequences of an Ack packet, one after the other. */
  lemma {:induction false} AckAllSends(x: Endpoint, y: Endpoint, xy: Link, h: History, ss: seq<nat>)
    requires Informed(x, y, xy, h) && Alive(x) && WfStats(x.stats)
    requires RecvROk(y.recvR, h) && ProcessedOk(xy, y.recvR, h.processed)
    requires Increasing(ss) && forall k :: 0 <= k < |ss| ==> ss[k] in x.sentPackets && ss[k] in h.processed
    ensures var r := AckAll(x, ss);
      && Informed(r, y, xy, h) && Alive(r)
      && forall k :: k in r.sentPackets <==> k in x.sentPackets && k !in ss
  {
    hide Informed, RecvROk, ProcessedOk, WfStats, AckOne;
    if ss != [] {
      var n := |ss| - 1;
      var before := ss[..n];
      AckAllSends(x, y, xy, h, before);
      assert ss[n] !in before;
      AckOneSends(AckAll(x, before), y, xy, h, ss[n]);
      assert ss == before + [ss[n]];
    }
  }

  // ---------------------------------------------------------------- delivery of a packet

  lemma InformedFrame(x: Endpoint, x': Endpoint, y: Endpoint, xy: Link, h: History)
    requires Informed(x, y, xy, h)
    requires x'.packetSequence == x.packetSequence && x'.sentPackets == x.sentPackets
    requires x'.sendR == x.sendR && x'.sendU == x.sendU && (Alive(x') ==> Alive(x))
    ensures Informed(x', y, xy, h)
  {
    hide TrackOk, ChannelsOk, SendROk, SendUOk, KnowledgeOk, Genuine, Encodable, Encode;
  }

  lemma InformedDir(x: Endpoint, x': Endpoint, y: Endpoint, xy: Link, yx: Link, h: History)
    requires DirInv(x, y, xy, yx, h) && Informed(x', y, xy, h)
    ensures DirInv(x', y, xy, yx, h)
  {
  }

  lemma HandleAckSends(x: Endpoint, y: Endpoint, xy: Link, h: History, p: Packet)
    requires Informed(x, y, xy, h) && Alive(x) && WfStats(x.stats)
    requires RecvROk(y.recvR, h) && ProcessedOk(xy, y.recvR, h.processed)
    requires p.Ack? && Normal(p.ackRanges) && AcksOk(p.ackRanges, h.processed)
    ensures Informed(Handle(x, p), y, xy, h) && Alive(Handle(x, p))
  {
    hide Informed, RecvROk, ProcessedOk, WfStats, AckAll, NewAcks, Covers;
    NewAcksSpec(x.sentPackets, p.ackRanges);
    AckAllSends(x, y, xy, h, NewAcks(x.sentPackets, p.ackRanges));
  }

  /** `x` processes a payload that `y` sent. */
  lemma DeliverSends(x: Endpoint, y: Endpoint, xy: Link, yx: Link, h: History, hr: History, i: nat)
    requires DirInv(x, y, xy, yx, h) && WfStats(x.stats) && ReceiverOk(x, hr)
    requires i < |yx.wire| <= |yx.log| && Genuine(hr, yx.log[i])
    requires Encodable(yx.log[i]) && yx.wire[i] == Encode(yx.log[i])
    ensures var x' := ProcessPacket(x, yx.wire[i]);
      DirInv(x', y, xy, yx, h) && (x'.status.Panicked? ==> x.status.Panicked?)
  {
    hide ProcessPacket, SenderOk, ReceiverOk, ProcessedOk, KnowledgeOk, Genuine, Decode, Encode, Encodable, WfStats, Normal;
    var x' := ProcessPacket(x, yx.wire[i]);
    if Alive(x) {
      var p := yx.log[i];
      DR.GenuineDecodes(hr, p);
      if Decode(yx.wire[i]).Ok? {
        if p.Ack? {
          AckSends(x, y, xy, yx, h, hr, i);
        } else {
          DataSends(x, y, xy, yx.wire[i], p, h, hr);
        }
      } else {
        DR.RefusesPayload(x, yx.wire[i]);
        RefusalSends(x, yx.wire[i]);
        InformedFrame(x, x', y, xy, h);
      }
      InformedDir(x, x', y, xy, yx, h);
    } else {
      DR.IgnoresPayload(x, yx.wire[i]);
    }
  }

  lemma RefusalSends(x: Endpoint, bytes: seq<byte>)
    requires WfStats(x.stats) && Alive(x) && Decode(bytes).Err?
    ensures var x' := ProcessPacket(x, bytes);
      && x'.packetSequence == x.packetSequence && x'.sentPackets == x.sentPackets
      && x'.sendR == x.sendR && x'.sendU == x.sendU && !x'.status.Panicked?
  {
    hide Decode;
  }

  lemma AckSends(x: Endpoint, y: Endpoint, xy: Link, yx: Link, h: History, hr: History, i: nat)
    requires DirInv(x, y, xy, yx, h) && WfStats(x.stats) && Alive(x)
    requires i < |yx.log| && yx.log[i].Ack? && Genuine(hr, yx.log[i])
    requires i < |yx.wire| && Decode(yx.wire[i]) == Ok(yx.log[i])
    ensures var x' := ProcessPacket(x, yx.wire[i]); Informed(x', y, xy, h) && !x'.status.Panicked?
  {
    hide SenderOk, RecvROk, RecvUOk, ProcessedOk, KnowledgeOk, Decode, WfStats, Normal, AddAck, Handle, AcksOk;
    var p := yx.log[i];
    PendingIrrelevant(x, y, xy, h, AddAck(x.pendingAcks, p.sequence));
    HandleAckSends(x.(pendingAcks := AddAck(x.pendingAcks, p.sequence)), y, xy, h, p);
  }

  lemma DataSends(x: Endpoint, y: Endpoint, xy: Link, bytes: seq<byte>, p: Packet, h: History, hr: History)
    requires Informed(x, y, xy, h) && ReceiverOk(x, hr) && WfStats(x.stats) && Alive(x)
    requires Decode(bytes) == Ok(p) && !p.Ack? && Genuine(hr, p)
    ensures var x' := ProcessPacket(x, bytes); Informed(x', y, xy, h) && !x'.status.Panicked?
  {
    hide Informed, ReceiverOk, Decode, WfStats, AddAck, Handle, Genuine, RecvGrows, Absorbed;
    var noted := x.(pendingAcks := AddAck(x.pendingAcks, p.sequence));
    PendingIrrelevant(x, y, xy, h, noted.pendingAcks);
    DR.SameReceiver(x, noted, hr);
    DR.HandleData(noted, p, hr);
    InformedFrame(noted, ProcessPacket(x, bytes), y, xy, h);
  }

  // ---------------------------------------------------------------- time passes

  lemma UpdateSends(x: Endpoint, y: Endpoint, xy: Link, yx: Link, h: History, duration: Time)
    requires DirInv(x, y, xy, yx, h) && WfEndpoint(x)
    ensures DirInv(Update(x, duration), y, xy, yx, h)
  {
    hide LinkOk, ChannelsOk, SendROk, SendUOk, KnowledgeOk, ReceiverOk, ProcessedOk, PendingOk, InfoOf, WfEndpoint;
  }

  // ---------------------------------------------------------------- a message is sent

  /** What `send_message` adds to the history. */
  function NoteSent(h: History, x: Endpoint, c: byte, m: Message): History {
    if !Alive(x) then h
    else if c in x.sendR then
      if RS.SendMessage(x.sendR[c], m).None? then h else h.(sent := h.sent[c := At(h.sent, c) + [m]])
    else if c in x.sendU && x.sendU[c].memoryUsage + |m| <= x.sendU[c].maxMemory then
      h.(usent := h.usent[c := At(h.usent, c) + [m]])
    else h
  }

  lemma RecvExtends(r: RR.RecvState, sent: seq<Message>, sent': seq<Message>, delivered: seq<nat>)
    requires RR.RecvInv(r, sent, delivered) && sent <= sent'
    ensures RR.RecvInv(r, sent', delivered)
  {
    hide Slicing.Partial, RR.MemoryExact, RR.Ledger;
  }

  lemma URecvExtends(
    r: U.URecv, sent: seq<Message>, sent': seq<Message>, sliced: seq<Message>, sliced': seq<Message>, now: Time)
    requires U.URecvInv(r, sent, sliced, now) && sent <= sent' && sliced <= sliced' && Within(sliced', sent')
    ensures U.URecvInv(r, sent', sliced', now)
  {
    WithinPrefix(r.queue, sent, sent');
    hide Slicing.Partial, RR.SliceBytes, Within;
  }

  /** More messages sent, nothing else. */
  ghost predicate OnlySent(h: History, h': History) {
    && Extends(h, h')
    && h'.delivered == h.delivered && h'.out == h.out && h'.processed == h.processed
    && (forall c: byte :: Within(At(h.sliced, c), At(h.usent, c)) ==> Within(At(h'.sliced, c), At(h'.usent, c)))
  }

  lemma OutExtends(out: seq<Message>, delivered: seq<nat>, sent: seq<Message>, sent': seq<Message>)
    requires OutOk(out, delivered, sent) && sent <= sent'
    ensures OutOk(out, delivered, sent')
  {
  }

  lemma ExtendRecvR(recvR: map<byte, RR.RecvState>, h: History, h': History)
    requires RecvROk(recvR, h) && OnlySent(h, h')
    ensures RecvROk(recvR, h')
  {
    hide RR.RecvInv, OutOk, Within, At;
    forall c | c in recvR
      ensures RR.RecvInv(recvR[c], At(h'.sent, c), At(h'.delivered, c))
      ensures OutOk(At(h'.out, c), At(h'.delivered, c), At(h'.sent, c))
    {
      assert At(h.sent, c) <= At(h'.sent, c);
      RecvExtends(recvR[c], At(h.sent, c), At(h'.sent, c), At(h.delivered, c));
      OutExtends(At(h.out, c), At(h.delivered, c), At(h.sent, c), At(h'.sent, c));
    }
  }

  lemma UInvWithin(r: U.URecv, sent: seq<Message>, sliced: seq<Message>, now: Time)
    requires U.URecvInv(r, sent, sliced, now)
    ensures Within(sliced, sent)
  {
  }

  lemma ExtendRecvU(recvR: map<byte, RR.RecvState>, recvU: map<byte, U.URecv>, h: History, h': History, now: Time)
    requires RecvUOk(recvR, recvU, h, now) && OnlySent(h, h')
    ensures RecvUOk(recvR, recvU, h', now)
  {
    hide U.URecvInv, Within, At;
    forall c | c in recvU
      ensures U.URecvInv(recvU[c], At(h'.usent, c), At(h'.sliced, c), now)
      ensures c !in recvR ==> Within(At(h'.out, c), At(h'.usent, c))
    {
      assert At(h.usent, c) <= At(h'.usent, c) && At(h.sliced, c) <= At(h'.sliced, c);
      UInvWithin(recvU[c], At(h.usent, c), At(h.sliced, c), now);
      URecvExtends(recvU[c], At(h.usent, c), At(h'.usent, c), At(h.sliced, c), At(h'.sliced, c), now);
      if c !in recvR {
        WithinPrefix(At(h.out, c), At(h.usent, c), At(h'.usent, c));
      }
    }
  }

  lemma ExtendReceiver(y: Endpoint, h: History, h': History)
    requires ReceiverOk(y, h) && OnlySent(h, h')
    ensures ReceiverOk(y, h')
  {
    hide RecvROk, RecvUOk, OnlySent;
    ExtendRecvR(y.recvR, h, h');
    ExtendRecvU(y.recvR, y.recvU, h, h', y.currentTime);
  }

  lemma ExtendLink(xy: Link, h: History, h': History, n: nat, alive: bool)
    requires LinkOk(xy, h, n, alive) && Extends(h, h')
    ensures LinkOk(xy, h', n, alive)
  {
    hide Genuine, Extends, Encode, Encodable;
    forall i | 0 <= i < |xy.log|
      ensures Genuine(h', xy.log[i])
    {
      GenuineMonotone(h, h', xy.log[i]);
    }
  }

  /** The receiver's side and the link do not mind that more was sent. */
  lemma ExtendDir(x: Endpoint, x': Endpoint, y: Endpoint, xy: Link, yx: Link, h: History, h': History)
    requires DirInv(x, y, xy, yx, h) && OnlySent(h, h')
    requires x'.packetSequence == x.packetSequence && x'.sentPackets == x.sentPackets
    requires (Alive(x') ==> Alive(x)) && x'.sendR.Keys == x.sendR.Keys
    requires SendROk(x'.sendR, h') && SendUOk(x'.sendU, h') && KnowledgeOk(x'.sendR, y.recvR)
    ensures DirInv(x', y, xy, yx, h')
  {
    hide SendROk, SendUOk, KnowledgeOk, RecvROk, RecvUOk, ProcessedOk, TrackOk, ChannelsOk, Extends, Genuine, AcksOk,
      AckLogOk, Normal, Encodable, Encode;
    assert ReceiverOk(y, h);
    ExtendReceiver(y, h, h');
    ExtendLink(xy, h, h', x.packetSequence, Alive(x));
  }

  lemma ChannelSends(s: RS.SendState, c: byte, sent: seq<Message>, recvR: map<byte, RR.RecvState>, m: Message)
    requires Holds(s, c, sent) && Known(s, recvR, c) && RS.SendMessage(s, m).Some?
    ensures var s' := RS.SendMessage(s, m).value;
      Holds(s', c, sent + [m]) && Known(s', recvR, c)
  {
    RS.SendMessageWf(s, m);
    hide RS.WfSend, AcceptedBy, GotSliceBy;
  }

  lemma ChannelEnqueues(s: U.USend, c: byte, usent: seq<Message>, sliced: seq<Message>, m: Message)
    requires UHolds(s, c, usent, sliced) && s.memoryUsage + |m| <= s.maxMemory
    ensures UHolds(U.Enqueue(s, m), c, usent + [m], sliced)
  {
    QueueBytesAppend(s.queue, m);
    WithinPrefix(s.queue, usent, usent + [m]);
    WithinPrefix(sliced, usent, usent + [m]);
    assert m == (usent + [m])[|usent|];
    AppendStaysWithin(s.queue, m, usent + [m]);
    hide Within;
  }

  lemma NoteSentExtends(h: History, x: Endpoint, c: byte, m: Message)
    ensures OnlySent(h, NoteSent(h, x, c, m))
  {
    var h' := NoteSent(h, x, c, m);
    hide RS.SendMessage;
    forall k: byte
      ensures At(h.sent, k) <= At(h'.sent, k)
      ensures At(h.usent, k) <= At(h'.usent, k)
      ensures At(h.sliced, k) == At(h'.sliced, k)
    {
    }
    hide NoteSent;
    forall k: byte | Within(At(h.sliced, k), At(h.usent, k))
      ensures Within(At(h'.sliced, k), At(h'.usent, k))
    {
      WithinPrefix(At(h.sliced, k), At(h.usent, k), At(h'.usent, k));
    }
    hide Within, At;
  }

  lemma SendOnReliable(x: Endpoint, y: Endpoint, h: History, c: byte, m: Message)
    requires SendROk(x.sendR, h) && KnowledgeOk(x.sendR, y.recvR)
    requires Alive(x) && c in x.sendR && RS.SendMessage(x.sendR[c], m).Some?
    ensures SendROk(SendMessage(x, c, m).sendR, NoteSent(h, x, c, m))
    ensures KnowledgeOk(SendMessage(x, c, m).sendR, y.recvR)
  {
    hide Holds, Known, RS.SendMessage;
    ChannelSends(x.sendR[c], c, At(h.sent, c), y.recvR, m);
  }

  lemma SendOnUnreliable(x: Endpoint, h: History, c: byte, m: Message)
    requires SendUOk(x.sendU, h) && Alive(x) && c !in x.sendR && c in x.sendU
    ensures SendUOk(SendMessage(x, c, m).sendU, NoteSent(h, x, c, m))
  {
    hide UHolds;
    if x.sendU[c].memoryUsage + |m| <= x.sendU[c].maxMemory {
      ChannelEnqueues(x.sendU[c], c, At(h.usent, c), At(h.sliced, c), m);
    }
  }

  /** The sending channels after `send_message`. */
  lemma SendChannels(x: Endpoint, y: Endpoint, h: History, c: byte, m: Message)
    requires SendROk(x.sendR, h) && SendUOk(x.sendU, h) && KnowledgeOk(x.sendR, y.recvR)
    requires c in x.sendR || c in x.sendU
    ensures var x', h' := SendMessage(x, c, m), NoteSent(h, x, c, m);
      SendROk(x'.sendR, h') && SendUOk(x'.sendU, h') && KnowledgeOk(x'.sendR, y.recvR)
  {
    hide Holds, UHolds, KnowledgeOk, RS.SendMessage, U.Enqueue;
    if Alive(x) && c in x.sendR && RS.SendMessage(x.sendR[c], m).Some? {
      SendOnReliable(x, y, h, c, m);
    } else if Alive(x) && c !in x.sendR {
      SendOnUnreliable(x, h, c, m);
    }
  }

  /** `send_message`: the new message gets the next id and is not lost. */
  lemma SendSends(x: Endpoint, y: Endpoint, xy: Link, yx: Link, h: History, c: byte, m: Message)
    requires DirInv(x, y, xy, yx, h) && (c in x.sendR || c in x.sendU)
    ensures DirInv(SendMessage(x, c, m), y, xy, yx, NoteSent(h, x, c, m))
  {
    hide SendROk, SendUOk, KnowledgeOk, RS.SendMessage, OnlySent, ReceiverOk, ProcessedOk, PendingOk, LinkOk, TrackOk,
      ChannelsOk, NoteSent;
    NoteSentExtends(h, x, c, m);
    SendChannels(x, y, h, c, m);
    ExtendDir(x, SendMessage(x, c, m), y, xy, yx, h, NoteSent(h, x, c, m));
  }
}
