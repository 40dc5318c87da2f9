/**
 `RenetClient` (renet/src/remote_connection.rs) as the object it is, proved against
 `Connection`. Its channels are values that it owns; their own methods are proved in
 `SendChannel`, `ReceiveChannel` and `UnreliableChannel`.
 */
module RemoteConnection {
  import opened Common
  import opened AckRanges
  import opened Wire
  import opened Stats
  import opened C = Connection
  import RS = ReliableSend
  import SS = SendScheduling
  import RR = ReliableReceive
  import U = Unreliable
  import Direction
  import D = Delivery
  import PB = PacketBytes

  // ---------------------------------------------------------------- pending acknowledgements

  lemma PlaceSkip(rs: seq<Range>, s: nat)
    requires rs != [] && rs[0].start < rs[0].end < s
    ensures Place(rs, s) == [rs[0]] + Place(rs[1..], s)
  {
  }

  lemma {:induction false} PlacePast(rs: seq<Range>, s: nat, k: nat)
    requires k <= |rs| && forall i :: 0 <= i < k ==> rs[i].start < rs[i].end < s
    ensures Place(rs, s) == rs[..k] + Place(rs[k..], s)
  {
    hide Place;
    if k == 0 {
      assert rs[0..] == rs;
    } else {
      PlaceSkip(rs, s);
      PlacePast(rs[1..], s, k - 1);
      assert rs[1..][k - 1..] == rs[k..];
      assert [rs[0]] + rs[1..][..k - 1] == rs[..k];
    }
  }

  /** What becomes of the ranges when range `k` is the first one that does not lie below the sequence. */
  ghost function PlacedAt(rs: seq<Range>, s: nat, k: nat): seq<Range>
    requires k < |rs|
  {
    var r := rs[k];
    if r.start <= s < r.end then rs
    else if r.start == s + 1 then rs[k := Range(s, r.end)]
    else if r.end == s then
      if k + 1 < |rs| && s + 1 == rs[k + 1].start then rs[..k] + [Range(r.start, rs[k + 1].end)] + rs[k + 2..]
      else rs[k := Range(r.start, s + 1)]
    else rs[..k] + [Range(s, s + 1)] + rs[k..]
  }

  lemma PlaceHead(rs: seq<Range>, s: nat)
    requires rs != [] && rs[0].start < rs[0].end && s <= rs[0].end
    ensures Place(rs, s) == PlacedAt(rs, s, 0)
  {
  }

  lemma PlacedBehind(head: seq<Range>, tail: seq<Range>, s: nat)
    requires tail != []
    ensures head + PlacedAt(tail, s, 0) == PlacedAt(head + tail, s, |head|)
  {
    var rs, r := head + tail, tail[0];
    assert rs[|head|] == r;
    if r.start <= s < r.end {
    } else if r.start == s + 1 {
      SetBehind(head, tail, Range(s, r.end));
    } else if r.end == s {
      if |tail| > 1 && s + 1 == tail[1].start {
        assert rs[|head| + 2..] == tail[2..] && rs[..|head|] == head && tail[..0] == [];
      } else {
        SetBehind(head, tail, Range(r.start, s + 1));
      }
    } else {
      assert rs[|head|..] == tail && rs[..|head|] == head && tail[..0] == [];
    }
  }

  lemma SetBehind(head: seq<Range>, tail: seq<Range>, r: Range)
    requires tail != []
    ensures head + tail[0 := r] == (head + tail)[|head| := r]
  {
  }

  lemma PlaceAt(rs: seq<Range>, s: nat, k: nat)
    requires k < |rs| && (forall i :: 0 <= i < k ==> rs[i].start < rs[i].end < s)
    requires rs[k].start < rs[k].end && s <= rs[k].end
    ensures Place(rs, s) == PlacedAt(rs, s, k)
  {
    hide Place, PlacedAt;
    PlacePast(rs, s, k);
    PlaceHead(rs[k..], s);
    PlacedBehind(rs[..k], rs[k..], s);
    assert rs[..k] + rs[k..] == rs;
  }

  lemma EndsIncrease(rs: seq<Range>, i: nat)
    requires Normal(rs) && i < |rs|
    ensures rs[i].start < rs[i].end <= rs[|rs| - 1].end
  {
  }

  // ---------------------------------------------------------------- configuration

  datatype SendType = UnreliableChannel | ReliableOrdered(resendTime: Time) | ReliableUnordered(resendTime: Time)

  datatype ChannelConfig = ChannelConfig(channelId: byte, maxMemory: nat, sendType: SendType)

  function OrderOf(c: ChannelConfig): ChannelOrder {
    if c.sendType.UnreliableChannel? then Unreliable(c.channelId) else Reliable(c.channelId)
  }

  /** Memory limits are machine words, and no channel is configured twice. */
  ghost predicate ValidConfig(cs: seq<ChannelConfig>) {
    && (forall i :: 0 <= i < |cs| ==> cs[i].maxMemory < Direction.WORD_LIMIT)
    && (forall i, j :: 0 <= i < j < |cs| ==> OrderOf(cs[i]) != OrderOf(cs[j]))
  }

  /** The endpoint has a new receiving channel with this configuration. */
  ghost predicate Receives(e: Endpoint, c: ChannelConfig) {
    if c.sendType.UnreliableChannel? then c.channelId in e.recvU && e.recvU[c.channelId] == U.NewRecv(c.maxMemory)
    else c.channelId in e.recvR && e.recvR[c.channelId] == RR.New(c.maxMemory, c.sendType.ReliableOrdered?)
  }

  /** The endpoint has a new sending channel with this configuration. */
  ghost predicate Sends(sendU: map<byte, U.USend>, sendR: map<byte, RS.SendState>, c: ChannelConfig) {
    if c.sendType.UnreliableChannel? then c.channelId in sendU && sendU[c.channelId] == U.NewSend(c.channelId, c.maxMemory)
    else c.channelId in sendR && sendR[c.channelId] == RS.New(c.channelId, c.sendType.resendTime, c.maxMemory)
  }

  method BuildSend(cs: seq<ChannelConfig>)
    returns (sendU: map<byte, U.USend>, sendR: map<byte, RS.SendState>, order: seq<ChannelOrder>)
    requires ValidConfig(cs)
    ensures |order| == |cs|
    ensures forall i :: 0 <= i < |cs| ==> order[i] == OrderOf(cs[i]) && Exists(order[i], sendR.Keys, sendU.Keys)
    ensures forall i :: 0 <= i < |cs| ==> Sends(sendU, sendR, cs[i])
    ensures forall c :: c in sendR ==>
      sendR[c] == RS.New(c, sendR[c].resendTime, sendR[c].maxMemory) && sendR[c].maxMemory < Direction.WORD_LIMIT
    ensures forall c :: c in sendU ==>
      sendU[c] == U.NewSend(c, sendU[c].maxMemory) && sendU[c].maxMemory < Direction.WORD_LIMIT
  {
    sendU, sendR, order := map[], map[], [];
    for k := 0 to |cs|
      invariant |order| == k
      invariant forall i :: 0 <= i < k ==> order[i] == OrderOf(cs[i]) && Exists(order[i], sendR.Keys, sendU.Keys)
      invariant forall i :: 0 <= i < k ==> Sends(sendU, sendR, cs[i])
      invariant forall c :: c in sendR ==>
        sendR[c] == RS.New(c, sendR[c].resendTime, sendR[c].maxMemory) && sendR[c].maxMemory < Direction.WORD_LIMIT
      invariant forall c :: c in sendU ==>
        sendU[c] == U.NewSend(c, sendU[c].maxMemory) && sendU[c].maxMemory < Direction.WORD_LIMIT
    {
      var c := cs[k];
      assert forall i :: 0 <= i < k ==> OrderOf(cs[i]) != OrderOf(c);
      match c.sendType {
        case UnreliableChannel =>
          sendU := sendU[c.channelId := U.NewSend(c.channelId, c.maxMemory)];
          order := order + [Unreliable(c.channelId)];
        case _ =>
          sendR := sendR[c.channelId := RS.New(c.channelId, c.sendType.resendTime, c.maxMemory)];
          order := order + [Reliable(c.channelId)];
      }
    }
  }

  method BuildReceive(cs: seq<ChannelConfig>) returns (recvU: map<byte, U.URecv>, recvR: map<byte, RR.RecvState>)
    requires ValidConfig(cs)
    ensures forall i :: 0 <= i < |cs| ==>
      if cs[i].sendType.UnreliableChannel? then
        cs[i].channelId in recvU && recvU[cs[i].channelId] == U.NewRecv(cs[i].maxMemory)
      else
        cs[i].channelId in recvR && recvR[cs[i].channelId] == RR.New(cs[i].maxMemory, cs[i].sendType.ReliableOrdered?)
    ensures forall c :: c in recvR ==> recvR[c] == RR.New(recvR[c].maxMemory, recvR[c].order.Ordered?)
    ensures forall c :: c in recvU ==> recvU[c] == U.NewRecv(recvU[c].maxMemory)
  {
    recvU, recvR := map[], map[];
    for k := 0 to |cs|
      invariant forall i :: 0 <= i < k ==>
        if cs[i].sendType.UnreliableChannel? then
          cs[i].channelId in recvU && recvU[cs[i].channelId] == U.NewRecv(cs[i].maxMemory)
        else
          cs[i].channelId in recvR && recvR[cs[i].channelId] == RR.New(cs[i].maxMemory, cs[i].sendType.ReliableOrdered?)
      invariant forall c :: c in recvR ==> recvR[c] == RR.New(recvR[c].maxMemory, recvR[c].order.Ordered?)
      invariant forall c :: c in recvU ==> recvU[c] == U.NewRecv(recvU[c].maxMemory)
    {
      var c := cs[k];
      assert forall i :: 0 <= i < k ==> OrderOf(cs[i]) != OrderOf(c);
      match c.sendType {
        case UnreliableChannel =>
          recvU := recvU[c.channelId := U.NewRecv(c.maxMemory)];
        case _ =>
          recvR := recvR[c.channelId := RR.New(c.maxMemory, c.sendType.ReliableOrdered?)];
      }
    }
  }

  class RenetClient {
    var packetSequence: nat
    var currentTime: Time
    var sentPackets: map<nat, PacketSent>
    var pendingAcks: seq<Range>
    const channelSendOrder: seq<ChannelOrder>
    var sendUnreliable: map<byte, U.USend>
    var receiveUnreliable: map<byte, U.URecv>
    var sendReliable: map<byte, RS.SendState>
    var receiveReliable: map<byte, RR.RecvState>
    var stats: StatsState
    const availableBytesPerTick: nat
    var status: Status

    ghost function Model(): Endpoint
      reads this
    {
      Endpoint(packetSequence, currentTime, sentPackets, pendingAcks, channelSendOrder, sendUnreliable, receiveUnreliable,
               sendReliable, receiveReliable, stats, availableBytesPerTick, status)
    }

    predicate IsDisconnected()
      reads this
    {
      status.Disconnected?
    }

    /** `from_channels`: a new client is one from which every run starts. */
    constructor (availableBytesPerTick: nat, sendConfig: seq<ChannelConfig>, receiveConfig: seq<ChannelConfig>)
      requires ValidConfig(sendConfig) && ValidConfig(receiveConfig)
      ensures D.FreshEndpoint(Model()) && this.availableBytesPerTick == availableBytesPerTick
      ensures |channelSendOrder| == |sendConfig|
      ensures forall i :: 0 <= i < |sendConfig| ==> channelSendOrder[i] == OrderOf(sendConfig[i])
      ensures forall i :: 0 <= i < |sendConfig| ==> Sends(sendUnreliable, sendReliable, sendConfig[i])
      ensures forall i :: 0 <= i < |receiveConfig| ==> Receives(Model(), receiveConfig[i])
    {
      var sendU, sendR, order := BuildSend(sendConfig);
      var recvU, recvR := BuildReceive(receiveConfig);
      packetSequence := 0;
      currentTime := 0;
      sentPackets := map[];
      pendingAcks := [];
      channelSendOrder := order;
      sendUnreliable := sendU;
      receiveUnreliable := recvU;
      sendReliable := sendR;
      receiveReliable := recvR;
      stats := NewStats();
      this.availableBytesPerTick := availableBytesPerTick;
      status := Connecting;
    }

    // ---------------------------------------------------------------- acknowledgements

    method AddPendingAck(sequence: nat)
      requires Normal(pendingAcks)
      modifies this`pendingAcks
      ensures pendingAcks == AddAck(old(pendingAcks), sequence)
    {
      hide Normal;
      ghost var rs := pendingAcks;
      if pendingAcks == [] {
        pendingAcks := [Range(sequence, sequence + 1)];
        return;
      }
      for index := 0 to |pendingAcks|
        invariant pendingAcks == rs
        invariant forall i :: 0 <= i < index ==> rs[i].start < rs[i].end < sequence
      {
        EndsIncrease(rs, index);
        var range := pendingAcks[index];
        if sequence <= range.end {
          PlaceAt(rs, sequence, index);
        }
        if range.start <= sequence < range.end {
          return;
        }
        if range.start == sequence + 1 {
          pendingAcks := pendingAcks[index := Range(sequence, range.end)];
          return;
        } else if range.end == sequence {
          pendingAcks := pendingAcks[index := Range(range.start, sequence + 1)];
          var next := index + 1;
          if next < |pendingAcks| && pendingAcks[index].end == pendingAcks[next].start {
            pendingAcks := pendingAcks[index := Range(range.start, pendingAcks[next].end)];
            pendingAcks := pendingAcks[..next] + pendingAcks[next + 1..];
          }
          return;
        } else if range.start > sequence + 1 {
          pendingAcks := pendingAcks[..index] + [Range(sequence, sequence + 1)] + pendingAcks[index..];
          return;
        }
      }
      PlacePast(rs, sequence, |rs|);
      assert rs[|rs|..] == [] && Place([], sequence) == [Range(sequence, sequence + 1)];
      pendingAcks := pendingAcks + [Range(sequence, sequence + 1)];
      if |pendingAcks| > MAX_RANGES {
        pendingAcks := pendingAcks[1..];
      }
    }

    method AckedLargest(largest: nat)
      modifies this`pendingAcks
      ensures pendingAcks == AckRanges.AckedLargest(old(pendingAcks), largest)
    {
      while pendingAcks != []
        invariant AckRanges.AckedLargest(pendingAcks, largest) == AckRanges.AckedLargest(old(pendingAcks), largest)
        decreases |pendingAcks|
      {
        var range := pendingAcks[0];
        if largest < range.start {
          return;
        }
        if range.end <= largest {
          pendingAcks := pendingAcks[1..];
          continue;
        }
        pendingAcks := [Range(largest + 1, range.end)] + pendingAcks[1..];
        if largest + 1 >= range.end {
          pendingAcks := pendingAcks[1..];
        }
        return;
      }
    }

    // ---------------------------------------------------------------- status

    method DisconnectWithReason(reason: DisconnectReason)
      requires !status.Panicked?
      modifies this`status
      ensures Model() == Disconnect(old(Model()), reason)
    {
      if !IsDisconnected() {
        status := Disconnected(reason);
      }
    }

    method SetConnected()
      requires !status.Panicked?
      modifies this`status
      ensures status == if Alive(old(Model())) then Connected else old(status)
    {
      if !IsDisconnected() {
        status := Connected;
      }
    }

    method SetConnecting()
      requires !status.Panicked?
      modifies this`status
      ensures status == if Alive(old(Model())) then Connecting else old(status)
    {
      if !IsDisconnected() {
        status := Connecting;
      }
    }

    // ---------------------------------------------------------------- messages

    method SendMessage(channelId: byte, message: Message)
      requires !status.Panicked? && (channelId in sendReliable || channelId in sendUnreliable)
      modifies this`sendReliable, this`sendUnreliable, this`status
      ensures Model() == C.SendMessage(old(Model()), channelId, message)
    {
      if IsDisconnected() {
        return;
      }
      if channelId in sendReliable {
        var sent := RS.SendMessage(sendReliable[channelId], message);
        if sent.None? {
          DisconnectWithReason(SendChannelError(channelId));
        } else {
          sendReliable := sendReliable[channelId := sent.value];
        }
      } else {
        sendUnreliable := sendUnreliable[channelId := U.Enqueue(sendUnreliable[channelId], message)];
      }
    }

    method ReceiveMessage(channelId: byte) returns (message: Option<Message>)
      requires !status.Panicked? && WfEndpoint(Model()) && (channelId in receiveReliable || channelId in receiveUnreliable)
      modifies this`receiveReliable, this`receiveUnreliable
      ensures Taken(Model(), message) == C.ReceiveMessage(old(Model()), channelId)
    {
      if IsDisconnected() {
        return None;
      }
      if channelId in receiveReliable {
        RR.ReceiveMemory(receiveReliable[channelId]);
        hide RR.Receive;
        var r := RR.Receive(receiveReliable[channelId]);
        receiveReliable := receiveReliable[channelId := r.state];
        return r.message;
      } else {
        UReceiveMemory(receiveUnreliable[channelId]);
        var r := U.UReceive(receiveUnreliable[channelId]);
        receiveUnreliable := receiveUnreliable[channelId := r.0];
        return r.1;
      }
    }

    // ---------------------------------------------------------------- update

    method DiscardOldSlices()
      requires forall c :: c in receiveUnreliable ==>
        RR.SliceBytes(receiveUnreliable[c].slices) <= receiveUnreliable[c].memoryUsage
      modifies this`receiveUnreliable
      ensures receiveUnreliable == DiscardAll(old(receiveUnreliable), currentTime)
    {
      hide U.Discard, RR.SliceBytes, QueueBytes;
      ghost var before := receiveUnreliable;
      var channels := receiveUnreliable.Keys;
      while channels != {}
        invariant channels <= receiveUnreliable.Keys == before.Keys
        invariant forall c :: c in channels ==> receiveUnreliable[c] == before[c]
        invariant forall c :: c in before && c !in channels ==>
          receiveUnreliable[c] == DiscardAll(before, currentTime)[c]
        decreases |channels|
      {
        var c :| c in channels;
        receiveUnreliable := receiveUnreliable[c := U.Discard(receiveUnreliable[c], currentTime)];
        channels := channels - {c};
      }
    }

    /** The packets that the scan finds lost before the first one that is not. */
    method FindLost() returns (lost: seq<nat>)
      requires forall s :: s in sentPackets ==> s < packetSequence
      ensures Elements(lost) == KeysBelow(sentPackets, FirstFresh(sentPackets, currentTime, 0, packetSequence))
    {
      hide Elements, KeysBelow, KeysFrom, FirstFresh;
      lost := [];
      ghost var next: nat := 0;
      ScanStart(sentPackets);
      var keys := sentPackets.Keys;
      while keys != {}
        invariant next <= packetSequence && keys == KeysFrom(sentPackets, next)
        invariant Elements(lost) == KeysBelow(sentPackets, next)
        invariant FirstFresh(sentPackets, currentTime, next, packetSequence) ==
                  FirstFresh(sentPackets, currentTime, 0, packetSequence)
        decreases |keys|
      {
        var s := First(keys);
        ScanStep(sentPackets, currentTime, packetSequence, next, s);
        if currentTime - sentPackets[s].sentAt >= C.DISCARD_AFTER {
          ElementsMore(lost, s);
          lost := lost + [s];
        } else {
          return;
        }
        next := s + 1;
        keys := keys - {s};
      }
      ScanEnd(sentPackets, currentTime, packetSequence, next);
    }

    method Update(duration: Time)
      requires WfEndpoint(Model())
      modifies this`currentTime, this`stats, this`receiveUnreliable, this`sentPackets
      ensures Model() == C.Update(old(Model()), duration)
    {
      hide FirstFresh, DiscardAll, UpdateStats, Dropped, RR.MemoryExact, RS.WfSend, U.WfUSend, Normal, KeysBelow, Expire,
        Elements, WfStats, Exists, RR.SliceBytes, QueueBytes;
      ghost var before := sentPackets;
      currentTime := currentTime + duration;
      stats := UpdateStats(stats, currentTime);
      DiscardOldSlices();
      var lost := FindLost();
      DroppedNone(lost);
      for i := 0 to |lost|
        modifies this`sentPackets
        invariant sentPackets == before - Dropped(lost, i)
      {
        DroppedStep(before, lost, i);
        sentPackets := sentPackets - {lost[i]};
      }
      DroppedAll(lost);
      ExpireRemoves(before, currentTime, packetSequence);
    }

    // ---------------------------------------------------------------- incoming packets

    method OnReceiveError(channelId: byte, error: Option<RR.RecvError>)
      requires !status.Panicked?
      modifies this`status
      ensures Model() == OnError(old(Model()), channelId, error)
    {
      if error == Some(RR.RecvPanic) {
        status := Panicked;
      } else if error.Some? {
        DisconnectWithReason(ReceiveChannelError(channelId, error.value));
      }
    }

    method ProcessSmallReliable(channelId: byte, messages: seq<Entry>)
      requires !status.Panicked? && channelId in receiveReliable
      modifies this`receiveReliable, this`status
      ensures Model() == HandleReliable(old(Model()), channelId, ProcessEntries(old(receiveReliable)[channelId], messages))
    {
      hide RR.ProcessMessage;
      var r := receiveReliable[channelId];
      var error: Option<RR.RecvError> := None;
      for i := 0 to |messages|
        invariant error.None? && ProcessEntries(old(receiveReliable)[channelId], messages) == ProcessEntries(r, messages[i..])
      {
        assert messages[i..][1..] == messages[i + 1..];
        var o := RR.ProcessMessage(r, messages[i].payload, messages[i].id);
        r, error := o.state, o.error;
        if error.Some? {
          break;
        }
      }
      receiveReliable := receiveReliable[channelId := r];
      OnReceiveError(channelId, error);
    }

    method ProcessSmallUnreliable(channelId: byte, messages: seq<Message>)
      requires channelId in receiveUnreliable
      modifies this`receiveUnreliable
      ensures Model() == old(Model()).(recvU :=
        old(receiveUnreliable)[channelId := UProcessMessages(old(receiveUnreliable)[channelId], messages)])
    {
      hide U.UProcessMessage;
      var r := receiveUnreliable[channelId];
      for i := 0 to |messages|
        invariant UProcessMessages(receiveUnreliable[channelId], messages) == UProcessMessages(r, messages[i..])
        invariant receiveUnreliable == old(receiveUnreliable)
      {
        assert messages[i..][1..] == messages[i + 1..];
        r := U.UProcessMessage(r, messages[i]);
      }
      receiveUnreliable := receiveUnreliable[channelId := r];
    }

    /** The tracked sequences in `range`, in ascending order. */
    method TrackedIn(range: Range) returns (sequences: seq<nat>)
      requires range.start <= range.end
      ensures sequences == KeysIn(sentPackets, range.start, range.end)
    {
      hide KeysIn, KeysFrom;
      sequences := [];
      ghost var next: nat := range.start;
      var keys := set s | s in sentPackets && range.start <= s < range.end;
      TrackedStart(sentPackets, range.start, range.end);
      while keys != {}
        invariant range.start <= next <= range.end && keys == KeysBetween(sentPackets, next, range.end)
        invariant sequences == KeysIn(sentPackets, range.start, next)
        decreases |keys|
      {
        var s := First(keys);
        TrackedStep(sentPackets, range.start, range.end, next, s);
        sequences := sequences + [s];
        keys := keys - {s};
        next := s + 1;
      }
      TrackedEnd(sentPackets, range.start, range.end, next);
    }

    method CollectNewAcks(ackRanges: seq<Range>) returns (newAcks: seq<nat>)
      requires Normal(ackRanges)
      ensures newAcks == NewAcks(sentPackets, ackRanges)
    {
      newAcks := [];
      for i := 0 to |ackRanges|
        invariant newAcks == NewAcks(sentPackets, ackRanges[..i])
      {
        assert ackRanges[..i + 1][..i] == ackRanges[..i];
        var sequences := TrackedIn(ackRanges[i]);
        newAcks := newAcks + sequences;
      }
      assert ackRanges[..|ackRanges|] == ackRanges;
    }

    method AckMessageIds(channelId: byte, ids: seq<nat>)
      requires channelId in sendReliable
      modifies this`sendReliable, this`status
      ensures Model() == OnAcked(old(Model()), channelId, AckMessages(old(sendReliable)[channelId], ids))
    {
      hide RS.AckMessage;
      var channel := sendReliable[channelId];
      for i := 0 to |ids|
        invariant sendReliable == old(sendReliable) && status == old(status)
        invariant AckMessages(sendReliable[channelId], ids) == AckMessages(channel, ids[i..])
      {
        assert ids[i..][1..] == ids[i + 1..];
        var acked := RS.AckMessage(channel, ids[i]);
        if acked.AckPanic? {
          status := Panicked;
          return;
        }
        channel := acked.state;
      }
      sendReliable := sendReliable[channelId := channel];
    }

    /** One sent packet is acknowledged. */
    method AckPacket(sequence: nat)
      requires WfStats(stats) && !status.Panicked?
      modifies this`sentPackets, this`stats, this`sendReliable, this`pendingAcks, this`status
      ensures Model() == AckOne(old(Model()), sequence) && WfStats(stats)
    {
      hide AckMessages, RS.AckSlice, AckRanges.AckedLargest;
      if sequence !in sentPackets {
        status := Panicked;
        return;
      }
      var sent := sentPackets[sequence];
      sentPackets := sentPackets - {sequence};
      stats := CountAcked(stats, sent.sentAt, currentTime);
      match sent.info {
        case ReliableMessages(channelId, ids) =>
          if channelId !in sendReliable {
            status := Panicked;
            return;
          }
          AckMessageIds(channelId, ids);
        case ReliableSliceMessage(channelId, id, index) =>
          if channelId !in sendReliable {
            status := Panicked;
            return;
          }
          var acked := RS.AckSlice(sendReliable[channelId], id, index);
          if acked.AckPanic? {
            status := Panicked;
            return;
          }
          sendReliable := sendReliable[channelId := acked.state];
        case AckInfo(largest) =>
          AckedLargest(largest);
        case NoInfo =>
      }
    }

    method ProcessAck(ackRanges: seq<Range>)
      requires WfStats(stats) && !status.Panicked? && Normal(ackRanges)
      modifies this`sentPackets, this`stats, this`sendReliable, this`pendingAcks, this`status
      ensures Model() == AckAll(old(Model()), NewAcks(old(sentPackets), ackRanges))
    {
      hide AckOne, NewAcks, Normal;
      ghost var e := Model();
      var newAcks := CollectNewAcks(ackRanges);
      for i := 0 to |newAcks|
        invariant WfStats(stats) && !status.Panicked? && Model() == AckAll(e, newAcks[..i])
      {
        assert newAcks[..i + 1][..i] == newAcks[..i];
        AckPacket(newAcks[i]);
        if status.Panicked? {
          AckPanicStays(e, newAcks, i + 1);
          return;
        }
      }
      assert newAcks[..|newAcks|] == newAcks;
    }

    method Dispatch(packet: Packet)
      requires WfStats(stats) && Alive(Model())
      requires packet.Ack? ==> Normal(packet.ackRanges)
      modifies this
      ensures Model() == Handle(old(Model()), packet)
    {
      hide ProcessEntries, UProcessMessages, RR.ProcessSlice, U.UProcessSlice, NewAcks, AckAll, Normal;
      match packet {
        case SmallReliable(_, channelId, messages) =>
          if channelId !in receiveReliable {
            DisconnectWithReason(ReceivedInvalidChannelId(channelId));
            return;
          }
          ProcessSmallReliable(channelId, messages);
        case SmallUnreliable(_, channelId, messages) =>
          if channelId !in receiveUnreliable {
            DisconnectWithReason(ReceivedInvalidChannelId(channelId));
            return;
          }
          ProcessSmallUnreliable(channelId, messages);
        case ReliableSlice(_, channelId, slice) =>
          if channelId !in receiveReliable {
            DisconnectWithReason(ReceivedInvalidChannelId(channelId));
            return;
          }
          var o := RR.ProcessSlice(receiveReliable[channelId], slice);
          receiveReliable := receiveReliable[channelId := o.state];
          OnReceiveError(channelId, o.error);
        case UnreliableSlice(_, channelId, slice) =>
          if channelId !in receiveUnreliable {
            DisconnectWithReason(ReceivedInvalidChannelId(channelId));
            return;
          }
          var o := U.UProcessSlice(receiveUnreliable[channelId], slice, currentTime);
          receiveUnreliable := receiveUnreliable[channelId := o.state];
          OnReceiveError(channelId, o.error);
        case Ack(_, ackRanges) =>
          ProcessAck(ackRanges);
      }
    }

    method ProcessPacket(bytes: seq<byte>)
      requires WfStats(stats) && Normal(pendingAcks) && !status.Panicked?
      modifies this
      ensures Model() == C.ProcessPacket(old(Model()), bytes)
    {
      hide Decode, Handle, Normal, AddAck;
      if IsDisconnected() {
        return;
      }
      var octets := new PB.Octets(bytes);
      var decoded := PB.FromBytes(octets);
      if decoded.Err? {
        DisconnectWithReason(PacketDeserialization);
        return;
      }
      DecodedAckIsNormal(bytes);
      AddPendingAck(decoded.value.sequence);
      Dispatch(decoded.value);
    }

    // ---------------------------------------------------------------- outgoing packets

    /** The packets of all channels in configuration order. */
    method GatherPackets() returns (packets: seq<Packet>, ghost sliced: map<byte, seq<Message>>, ghost left: nat)
      requires WfEndpoint(Model())
      modifies this`sendReliable, this`sendUnreliable, this`packetSequence
      ensures Gathered(sendReliable, sendUnreliable, packets, packetSequence, left, sliced) ==
              Gather(old(Model()), |channelSendOrder|)
    {
      hide WfEndpoint, SS.GetPackets, U.UGetPackets, RS.WfSend, U.WfUSend;
      ghost var e := Model();
      packets, sliced := [], map[];
      var available := availableBytesPerTick;
      for k := 0 to |channelSendOrder|
        invariant Gathered(sendReliable, sendUnreliable, packets, packetSequence, available, sliced) == Gather(e, k)
      {
        ghost var g := Gather(e, k);
        OrderExists(e, k);
        match channelSendOrder[k] {
          case Reliable(c) =>
            assert SS.AllWf(sendReliable[c].unacked) by { HeldWf(g, c); }
            var t := SS.GetPackets(sendReliable[c], packetSequence, available, currentTime);
            packets := packets + t.packets;
            packetSequence, available := t.sequence, t.available;
            sendReliable := sendReliable[c := t.state];
          case Unreliable(c) =>
            assert QueueBytes(sendUnreliable[c].queue) <= sendUnreliable[c].memoryUsage by { WfQueue(g, c); }
            var t := U.UGetPackets(sendUnreliable[c], packetSequence, available);
            packets := packets + t.packets;
            packetSequence, available := t.sequence, t.available;
            sendUnreliable := sendUnreliable[c := t.state];
            sliced := sliced[c := At(sliced, c) + t.sliced];
        }
      }
      left := available;
    }

    /** Remembers what the packets carry until they are acknowledged or given up. */
    method RecordPackets(packets: seq<Packet>)
      modifies this`sentPackets
      ensures sentPackets == Record(old(sentPackets), packets, currentTime)
    {
      hide InfoOf;
      for i := 0 to |packets|
        invariant sentPackets == Record(old(sentPackets), packets[..i], currentTime)
      {
        assert packets[..i + 1][..i] == packets[..i];
        sentPackets := sentPackets[packets[i].sequence := PacketSent(currentTime, InfoOf(packets[i]))];
      }
      assert packets[..|packets|] == packets;
    }

    /** Writing an integer of 2^62 or more panics in the source. */
    method SerializePackets(packets: seq<Packet>) returns (r: Serialized)
      ensures r == SerializeAll(packets)
    {
      hide Encodable, Encode;
      var serialized: seq<seq<byte>> := [];
      for i := 0 to |packets|
        invariant SerializeAll(packets[..i]) == Payloads(serialized)
      {
        assert packets[..i + 1][..i] == packets[..i];
        if !SerializeAll(packets[..i + 1]).Payloads? {
          SerializedPrefix(packets, i + 1);
        }
        if !Encodable(packets[i]) {
          return VarintPanic;
        }
        var octets := new PB.OctetsMut(BUFFER_SIZE);
        var len := PB.ToBytes(packets[i], octets);
        assert [] + Encode(packets[i]) == Encode(packets[i]);
        if len.Err? {
          return TooLong;
        }
        serialized := serialized + [octets.buf[..octets.off]];
      }
      assert packets[..|packets|] == packets;
      return Payloads(serialized);
    }

    /** The packets of the channels, and an acknowledgement if one is pending. */
    method CollectPackets() returns (packets: seq<Packet>)
      requires WfEndpoint(Model())
      modifies this`sendReliable, this`sendUnreliable, this`packetSequence
      ensures packets == AllPackets(old(Model()))
      ensures var g := Gather(old(Model()), |channelSendOrder|);
        && sendReliable == g.sendR && sendUnreliable == g.sendU
        && packetSequence == g.sequence + if pendingAcks == [] then 0 else 1
    {
      hide WfEndpoint, Gather;
      ghost var sliced, available;
      packets, sliced, available := GatherPackets();
      if pendingAcks != [] {
        packets := packets + [Ack(packetSequence, pendingAcks)];
        packetSequence := packetSequence + 1;
      } else {
        assert packets + [] == packets;
      }
    }

    method SendPackets(packets: seq<Packet>) returns (payloads: seq<seq<byte>>)
      requires WfStats(stats) && !status.Panicked?
      modifies this`sentPackets, this`stats, this`status
      ensures Output(Model(), packets, payloads) == SendOut(old(Model()), packets)
    {
      hide Record, SerializeAll, CountSent, WfStats;
      RecordPackets(packets);
      var serialized := SerializePackets(packets);
      match serialized {
        case VarintPanic =>
          status := Panicked;
          return [];
        case TooLong =>
          DisconnectWithReason(PacketSerialization);
          return [];
        case Payloads(serializedPayloads) =>
          stats := CountSent(stats, |serializedPayloads|);
          return serializedPayloads;
      }
    }

    method GetPacketsToSend() returns (payloads: seq<seq<byte>>)
      requires WfEndpoint(Model()) && !status.Panicked?
      modifies this
      ensures Model() == GetPackets(old(Model())).endpoint
      ensures payloads == GetPackets(old(Model())).payloads
    {
      hide WfEndpoint, Gather, SendOut, WfStats, AllPackets, SerializeAll;
      assert WfStats(stats) by { WfStatsOf(Model()); }
      if IsDisconnected() {
        return [];
      }
      var packets := CollectPackets();
      payloads := SendPackets(packets);
    }
  }

  // ---------------------------------------------------------------- facts used above

  /** After a panic nothing is acknowledged any more. */
  lemma {:induction false} AckPanicStays(e: Endpoint, ss: seq<nat>, k: nat)
    requires WfStats(e.stats) && k <= |ss| && AckAll(e, ss[..k]).status.Panicked?
    ensures AckAll(e, ss) == AckAll(e, ss[..k])
    decreases |ss|
  {
    hide AckOne;
    if k == |ss| {
      assert ss[..k] == ss;
    } else {
      var n := |ss| - 1;
      assert ss[..n][..k] == ss[..k];
      AckPanicStays(e, ss[..n], k);
    }
  }

  /** The first packet that cannot be serialized decides. */
  lemma {:induction false} SerializedPrefix(ps: seq<Packet>, k: nat)
    requires k <= |ps| && !SerializeAll(ps[..k]).Payloads?
    ensures SerializeAll(ps) == SerializeAll(ps[..k])
    decreases |ps|
  {
    hide Encodable, Encode;
    if k == |ps| {
      assert ps[..k] == ps;
    } else {
      var n := |ps| - 1;
      assert ps[..n][..k] == ps[..k];
      SerializedPrefix(ps[..n], k);
    }
  }

  lemma WfQueue(g: Gathered, c: byte)
    requires WfGathered(g) && c in g.sendU
    ensures QueueBytes(g.sendU[c].queue) <= g.sendU[c].memoryUsage
  {
  }

  ghost function KeysBetween(sent: map<nat, PacketSent>, lo: nat, hi: nat): set<nat> {
    set s | s in sent && lo <= s < hi
  }

  lemma TrackedStart(sent: map<nat, PacketSent>, lo: nat, hi: nat)
    ensures KeysIn(sent, lo, lo) == []
    ensures (set s | s in sent && lo <= s < hi) == KeysBetween(sent, lo, hi)
  {
  }

  lemma {:induction false} NoKeys(sent: map<nat, PacketSent>, lo: nat, a: nat, b: nat)
    requires lo <= a <= b && forall t :: a <= t < b ==> t !in sent
    ensures KeysIn(sent, lo, b) == KeysIn(sent, lo, a)
  {
    if a < b {
      NoKeys(sent, lo, a, b - 1);
    }
  }

  lemma TrackedStep(sent: map<nat, PacketSent>, lo: nat, hi: nat, next: nat, s: nat)
    requires lo <= next <= hi && IsFirst(KeysBetween(sent, next, hi), s)
    ensures next <= s < hi && s in sent
    ensures KeysIn(sent, lo, s + 1) == KeysIn(sent, lo, next) + [s]
    ensures KeysBetween(sent, s + 1, hi) == KeysBetween(sent, next, hi) - {s}
  {
    assert s in KeysBetween(sent, next, hi);
    forall t | next <= t < s
      ensures t !in sent
    {
      assert t in sent ==> t in KeysBetween(sent, next, hi);
    }
    NoKeys(sent, lo, next, s);
  }

  lemma TrackedEnd(sent: map<nat, PacketSent>, lo: nat, hi: nat, next: nat)
    requires lo <= next <= hi && KeysBetween(sent, next, hi) == {}
    ensures KeysIn(sent, lo, next) == KeysIn(sent, lo, hi)
  {
    forall t | next <= t < hi
      ensures t !in sent
    {
      assert t !in KeysBetween(sent, next, hi);
    }
    NoKeys(sent, lo, next, hi);
  }

  // ---------------------------------------------------------------- the scan for lost packets

  ghost function KeysBelow(sent: map<nat, PacketSent>, n: nat): set<nat> {
    set s | s in sent && s < n
  }

  ghost function KeysFrom(sent: map<nat, PacketSent>, n: nat): set<nat> {
    set s | s in sent && n <= s
  }

  lemma ScanStart(sent: map<nat, PacketSent>)
    ensures KeysFrom(sent, 0) == sent.Keys && KeysBelow(sent, 0) == {} && Elements([]) == {}
  {
  }

  lemma ElementsMore(xs: seq<nat>, x: nat)
    ensures Elements(xs + [x]) == Elements(xs) + {x}
  {
  }

  /** The smallest key not looked at yet is looked at. */
  lemma ScanStep(sent: map<nat, PacketSent>, now: Time, n: nat, next: nat, s: nat)
    requires next <= n && IsFirst(KeysFrom(sent, next), s) && (forall t :: t in sent ==> t < n)
    ensures s in sent && next <= s < n
    ensures KeysFrom(sent, s + 1) == KeysFrom(sent, next) - {s} && KeysBelow(sent, s + 1) == KeysBelow(sent, next) + {s}
    ensures KeysBelow(sent, s) == KeysBelow(sent, next)
    ensures FirstFresh(sent, now, next, n) == FirstFresh(sent, now, s, n)
    ensures now - sent[s].sentAt >= C.DISCARD_AFTER ==> FirstFresh(sent, now, s, n) == FirstFresh(sent, now, s + 1, n)
    ensures now - sent[s].sentAt < C.DISCARD_AFTER ==> FirstFresh(sent, now, s, n) == s
  {
    assert s in KeysFrom(sent, next);
    assert forall t :: next <= t < s ==> t !in sent by {
      forall t | next <= t < s
        ensures t !in sent
      {
        assert t in sent ==> t in KeysFrom(sent, next);
      }
    }
    SkipUntracked(sent, now, n, next, s);
  }

  lemma {:induction false} SkipUntracked(sent: map<nat, PacketSent>, now: Time, n: nat, a: nat, b: nat)
    requires a <= b <= n && forall t :: a <= t < b ==> t !in sent
    ensures FirstFresh(sent, now, a, n) == FirstFresh(sent, now, b, n)
    decreases b - a
  {
    if a < b {
      SkipUntracked(sent, now, n, a + 1, b);
    }
  }

  lemma ScanEnd(sent: map<nat, PacketSent>, now: Time, n: nat, next: nat)
    requires next <= n && KeysFrom(sent, next) == {} && (forall t :: t in sent ==> t < n)
    ensures KeysBelow(sent, next) == KeysBelow(sent, FirstFresh(sent, now, next, n))
  {
    assert forall t :: next <= t < n ==> t !in sent by {
      forall t | next <= t < n
        ensures t !in sent
      {
        assert t !in KeysFrom(sent, next);
      }
    }
    SkipUntracked(sent, now, n, next, n);
  }

  lemma ExpireRemoves(sent: map<nat, PacketSent>, now: Time, n: nat)
    ensures Expire(sent, now, n) == sent - KeysBelow(sent, FirstFresh(sent, now, 0, n))
  {
  }
}
