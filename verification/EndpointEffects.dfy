/**
 What the operations of an endpoint must do, and when, in every run
 (renet/src/remote_connection.rs, renet/src/channel/unreliable.rs): accept messages,
 disconnect, queue what arrives on unreliable channels, give up old slices, acknowledge.
 Statements are about `y` receiving from `x`; `Swap` gives the other direction.
 */
module EndpointEffects {
  import opened Common
  import opened AckRanges
  import opened Wire
  import opened Connection
  import opened Direction
  import opened Delivery
  import opened Theorems
  import Slicing
  import Stats
  import RS = ReliableSend
  import RR = ReliableReceive
  import U = Unreliable
  import DR = DirectionReceive
  import LB = LossBound

  // ---------------------------------------------------------------- send_message

  /** No part of the message was sent or acknowledged. */
  ghost predicate Unsent(u: RS.Unacked) {
    match u
    case Small(_, lastSent) => lastSent == None
    case Sliced(_, _, _, _, acked, lastSents) =>
      (forall i :: 0 <= i < |acked| ==> !acked[i]) && forall i :: 0 <= i < |lastSents| ==> lastSents[i] == None
  }

  /**
   A message is accepted exactly if the channel has memory for it. On a reliable channel it
   is then held, unsent, under the next id; otherwise the endpoint disconnects. An unreliable channel
   queues it, or drops it and stays connected.
   */
  lemma SendAccepts(e: Endpoint, c: byte, m: Message)
    requires Alive(e) && (c in e.sendR || c in e.sendU)
    ensures var e' := SendMessage(e, c, m);
      if c in e.sendR then
        var s := e.sendR[c];
        if s.memoryUsage + |m| <= s.maxMemory then
          && c in e'.sendR && e' == e.(sendR := e.sendR[c := e'.sendR[c]])
          && var s' := e'.sendR[c];
            && s'.nextId == s.nextId + 1 && s'.memoryUsage == s.memoryUsage + |m|
            && s'.unacked.Keys == s.unacked.Keys + {s.nextId} && s'.unacked[s.nextId].message == m && Unsent(s'.unacked[s.nextId])
            && (forall id :: id in s.unacked && id != s.nextId ==> s'.unacked[id] == s.unacked[id])
        else e' == e.(status := Disconnected(SendChannelError(c)))
      else
        var s := e.sendU[c];
        && e' == e.(sendU := e.sendU[c := e'.sendU[c]])
        && e'.sendU[c].queue == (if s.memoryUsage + |m| <= s.maxMemory then s.queue + [m] else s.queue)
  {
    if c in e.sendU && c !in e.sendR {
      assert e.sendU[c := e.sendU[c]] == e.sendU;
    }
  }

  /** In every run, an endpoint that is disconnected stays so, with the reason it was first given. */
  lemma {:induction false} FirstReasonStays(run: seq<System>, n: nat)
    requires IsRun(run) && n < |run| && run[n].x.status.Disconnected?
    ensures Last(run).x.status == run[n].x.status
  {
    hide Initial, Step;
    var m := |run| - 1;
    if n < m {
      var prefix := run[..m];
      assert IsRun(prefix) && prefix[n] == run[n];
      FirstReasonStays(prefix, n);
      StepStays(run[m - 1], run[m]);
    }
  }

  lemma StepStays(s: System, s': System)
    requires Step(s, s') && s.x.status.Disconnected?
    ensures s'.x.status == s.x.status
  {
    hide Enabled, Act;
    if a :| Enabled(s, a) && s' == Act(s, a) {
      ActStays(s, a);
    } else {
      var b :| Enabled(Swap(s), b) && s' == Swap(Act(Swap(s), b));
      ActKeepsPeer(Swap(s), b);
    }
  }

  lemma ActStays(s: System, a: Action)
    requires Enabled(s, a) && s.x.status.Disconnected?
    ensures Act(s, a).x.status == s.x.status
  {
    hide WfEndpoint, Stats.UpdateStats, DiscardAll, Expire;
    if a.DoTick? {
      DeadTick(s.x);
    }
  }

  // ---------------------------------------------------------------- when a payload disconnects

  /** Bytes of the messages in `es` that the channel does not have yet; `seen` came earlier. */
  ghost function NewBytes(r: RR.RecvState, es: seq<Entry>, seen: set<nat>): nat {
    if es == [] then 0
    else
      (if RR.Accepted(r, es[0].id) || es[0].id in seen then 0 else |es[0].payload|) + NewBytes(r, es[1..], seen + {es[0].id})
  }

  ghost predicate HasRoom(r: RR.RecvState, bytes: nat) {
    r.memoryUsage + bytes <= r.maxMemory
  }

  ghost predicate SliceFits(r: RR.RecvState, sl: Slice) {
    sl.messageId in r.messages || sl.messageId < r.oldest || sl.messageId in r.slices || HasRoom(r, sl.numSlices * SLICE_SIZE)
  }

  lemma {:induction false} NewBytesAfter(r: RR.RecvState, r': RR.RecvState, id: nat, es: seq<Entry>, seen: set<nat>)
    requires forall k :: RR.Accepted(r', k) <==> RR.Accepted(r, k) || k == id
    ensures NewBytes(r', es, seen) == NewBytes(r, es, seen + {id})
  {
    hide RR.Accepted;
    if es != [] {
      NewBytesAfter(r, r', id, es[1..], seen + {es[0].id});
      assert seen + {es[0].id} + {id} == seen + {id} + {es[0].id};
    }
  }

  lemma TakesOne(r: RR.RecvState, m: Message, id: nat)
    ensures var o := RR.ProcessMessage(r, m, id);
      if RR.Accepted(r, id) then
        o.error.None? && o.state.memoryUsage == r.memoryUsage && o.state.maxMemory == r.maxMemory &&
        forall k :: RR.Accepted(o.state, k) <==> RR.Accepted(r, k)
      else if HasRoom(r, |m|) then
        o.error.None? && o.state.memoryUsage == r.memoryUsage + |m| && o.state.maxMemory == r.maxMemory &&
        forall k :: RR.Accepted(o.state, k) <==> RR.Accepted(r, k) || k == id
      else o.error == Some(RR.MaxMemoryReached)
  {
  }

  /** The messages of a packet are refused exactly if the new ones exceed the channel's memory. */
  lemma {:induction false} EntriesRefusedIff(r: RR.RecvState, es: seq<Entry>)
    requires r.memoryUsage <= r.maxMemory
    ensures ProcessEntries(r, es).error == if HasRoom(r, NewBytes(r, es, {})) then None else Some(RR.MaxMemoryReached)
    decreases |es|
  {
    hide RR.Accepted, RR.ProcessMessage;
    if es != [] {
      var m, id := es[0].payload, es[0].id;
      TakesOne(r, m, id);
      var o := RR.ProcessMessage(r, m, id);
      if o.error.None? {
        EntriesRefusedIff(o.state, es[1..]);
        NewBytesAfter(r, o.state, id, es[1..], {});
        assert {} + {id} == {id};
      }
    }
  }

  lemma SliceRefusedIff(r: RR.RecvState, sent: seq<Message>, delivered: seq<nat>, sl: Slice)
    requires RR.RecvInv(r, sent, delivered) && RR.GenuineSlice(sent, sl)
    ensures RR.ProcessSlice(r, sl).error == if SliceFits(r, sl) then None else Some(RR.MaxMemoryReached)
  {
    RR.ProcessSliceInv(r, sent, delivered, sl);
    hide RR.RecvInv, Slicing.Process, RR.GenuineSlice;
  }

  /** The status after a packet of the peer that its decoder takes or refuses. */
  ghost function StatusAfter(y: Endpoint, p: Packet): Status {
    if TooManySlices(p) then Disconnected(PacketDeserialization)
    else
      match p
      case SmallReliable(_, c, es) =>
        if c !in y.recvR then Disconnected(ReceivedInvalidChannelId(c))
        else if HasRoom(y.recvR[c], NewBytes(y.recvR[c], es, {})) then y.status
        else Disconnected(ReceiveChannelError(c, RR.MaxMemoryReached))
      case ReliableSlice(_, c, sl) =>
        if c !in y.recvR then Disconnected(ReceivedInvalidChannelId(c))
        else if SliceFits(y.recvR[c], sl) then y.status
        else Disconnected(ReceiveChannelError(c, RR.MaxMemoryReached))
      case SmallUnreliable(_, c, _) => if c in y.recvU then y.status else Disconnected(ReceivedInvalidChannelId(c))
      case UnreliableSlice(_, c, _) => if c in y.recvU then y.status else Disconnected(ReceivedInvalidChannelId(c))
      case Ack(_, _) => y.status
  }

  lemma {:induction false} AckAllStatus(e: Endpoint, ss: seq<nat>)
    requires Stats.WfStats(e.stats) && Alive(e)
    ensures AckAll(e, ss).status == e.status || AckAll(e, ss).status.Panicked?
  {
    hide Stats.WfStats, AckOne;
    if ss != [] {
      AckAllStatus(e, ss[..|ss| - 1]);
      AckOneStatus(AckAll(e, ss[..|ss| - 1]), ss[|ss| - 1]);
    }
  }

  lemma AckOneStatus(e: Endpoint, q: nat)
    requires Stats.WfStats(e.stats)
    ensures AckOne(e, q).status == e.status || AckOne(e, q).status.Panicked?
  {
    hide Stats.WfStats, Stats.CountAcked, RS.AckSlice, AckMessages, AckedLargest;
  }

  lemma EntriesStatus(y: Endpoint, h: History, p: Packet)
    requires Stats.WfStats(y.stats) && ReceiverOk(y, h) && Alive(y) && p.SmallReliable?
    ensures Handle(y, p).status == StatusAfter(y, p)
  {
    hide Stats.WfStats, ReceiverOk, ProcessEntries, HasRoom, NewBytes;
    if p.channelId in y.recvR {
      ReliableOk(y, h, p.channelId);
      EntriesRefusedIff(y.recvR[p.channelId], p.entries);
    }
  }

  lemma SliceStatus(y: Endpoint, h: History, p: Packet)
    requires Stats.WfStats(y.stats) && ReceiverOk(y, h) && Alive(y) && p.ReliableSlice? && Genuine(h, p) && !TooManySlices(p)
    ensures Handle(y, p).status == StatusAfter(y, p)
  {
    hide Stats.WfStats, ReceiverOk, RR.ProcessSlice, SliceFits, RR.GenuineSlice;
    if p.channelId in y.recvR {
      ReliableOk(y, h, p.channelId);
      SliceRefusedIff(y.recvR[p.channelId], At(h.sent, p.channelId), At(h.delivered, p.channelId), p.slice);
    }
  }

  lemma UnreliableStatus(y: Endpoint, h: History, p: Packet)
    requires Stats.WfStats(y.stats) && ReceiverOk(y, h) && Alive(y) && Genuine(h, p) && !TooManySlices(p)
    requires p.SmallUnreliable? || p.UnreliableSlice?
    ensures Handle(y, p).status == StatusAfter(y, p)
  {
    hide Stats.WfStats, ReceiverOk, U.UProcessSlice, UProcessMessages, RR.GenuineSlice, U.URecvInv, Within;
    if p.UnreliableSlice? && p.channelId in y.recvU {
      UnreliableOk(y, h, p.channelId);
      U.UProcessSliceInv(y.recvU[p.channelId], At(h.usent, p.channelId), At(h.sliced, p.channelId), y.currentTime, p.slice);
    }
  }

  lemma AckStatus(y: Endpoint, p: Packet)
    requires Stats.WfStats(y.stats) && Alive(y) && p.Ack? && !Handle(y, p).status.Panicked?
    ensures Handle(y, p).status == StatusAfter(y, p)
  {
    hide Stats.WfStats, AckAll, NewAcks;
    AckAllStatus(y, NewAcks(y.sentPackets, p.ackRanges));
  }

  lemma HandleStatus(y: Endpoint, h: History, p: Packet)
    requires Stats.WfStats(y.stats) && ReceiverOk(y, h) && Alive(y) && Genuine(h, p) && !TooManySlices(p)
    requires !Handle(y, p).status.Panicked?
    ensures Handle(y, p).status == StatusAfter(y, p)
  {
    hide Stats.WfStats, ReceiverOk, Genuine, Handle, StatusAfter, TooManySlices, Alive;
    match p {
      case SmallReliable(_, _, _) => EntriesStatus(y, h, p);
      case ReliableSlice(_, _, _) => SliceStatus(y, h, p);
      case Ack(_, _) => AckStatus(y, p);
      case _ => UnreliableStatus(y, h, p);
    }
  }

  lemma ReliableOk(y: Endpoint, h: History, c: byte)
    requires ReceiverOk(y, h) && c in y.recvR
    ensures RR.RecvInv(y.recvR[c], At(h.sent, c), At(h.delivered, c)) && y.recvR[c].memoryUsage <= y.recvR[c].maxMemory
  {
    hide RecvUOk;
    assert RecvROk(y.recvR, h);
    assert RR.MemoryExact(y.recvR[c]);
  }

  lemma UnreliableOk(y: Endpoint, h: History, c: byte)
    requires ReceiverOk(y, h) && c in y.recvU
    ensures U.URecvInv(y.recvU[c], At(h.usent, c), At(h.sliced, c), y.currentTime)
  {
    hide RecvROk;
  }

  lemma NotedOk(y: Endpoint, h: History, rs: seq<Range>)
    requires ReceiverOk(y, h)
    ensures ReceiverOk(y.(pendingAcks := rs), h)
  {
    hide RecvROk, RecvUOk;
  }

  /** Packet `i` of the peer, as it is about to be delivered. */
  lemma Arriving(s: System, i: nat)
    requires SysInv(s) && i < |s.xy.wire| && !s.y.status.Panicked?
    ensures Stats.WfStats(s.y.stats) && ReceiverOk(s.y, s.hxy) && i < |s.xy.log| && Genuine(s.hxy, s.xy.log[i])
    ensures Decode(s.xy.wire[i]) == if TooManySlices(s.xy.log[i]) then Err(InvalidNumSlices) else Ok(s.xy.log[i])
    ensures !ProcessPacket(s.y, s.xy.wire[i]).status.Panicked?
  {
    hide SysInv, ReceiverOk, Genuine, ProcessPacket, SenderOk, Encode, Decode, Encodable, Stats.WfStats, WfEndpoint,
      TooManySlices;
    SwapInv(s);
    InvIsWf(Swap(s));
    ReceiverPart(s);
    SenderPart(s);
    WirePacket(s.x, s.xy, s.hxy, i);
    DR.GenuineDecodes(s.hxy, s.xy.log[i]);
    DeliverStep(Swap(s), i);
  }

  /**
   In every run, a payload of the peer disconnects the endpoint exactly if it is a slice of a
   message with too many slices, or for a channel that does not exist, or exceeds the memory
   of a reliable channel; and with that reason.
   */
  lemma DeliveryDisconnectsIff(run: seq<System>, i: nat)
    requires IsRun(run) && i < |Last(run).xy.wire| && Alive(Last(run).y)
    ensures var s := Last(run);
      && Stats.WfStats(s.y.stats) && i < |s.xy.log|
      && ProcessPacket(s.y, s.xy.wire[i]).status == StatusAfter(s.y, s.xy.log[i])
  {
    hide Step, Initial, SysInv, ReceiverOk, Genuine, Decode, Stats.WfStats, AddAck, HasRoom, SliceFits, NewBytes, Handle;
    RunInv(run);
    var s := Last(run);
    Arriving(s, i);
    var p := s.xy.log[i];
    if !TooManySlices(p) {
      var y := s.y.(pendingAcks := AddAck(s.y.pendingAcks, p.sequence));
      NotedOk(s.y, s.hxy, y.pendingAcks);
      HandleStatus(y, s.hxy, p);
    }
  }

  // ---------------------------------------------------------------- unreliable channels

  /** The messages among the first `k` that fit into the channel's memory when their turn comes. */
  ghost function Fitting(r: U.URecv, ms: seq<Message>): seq<Message>
    requires r.memoryUsage <= r.maxMemory
  {
    U.Kept(ms, r.maxMemory - r.memoryUsage, |ms|)
  }

  lemma KeptLast(ms: seq<Message>, room: nat, k: nat)
    requires 0 < k <= |ms|
    ensures var before := U.Kept(ms, room, k - 1);
      U.Kept(ms, room, k) == if QueueBytes(before) + |ms[k - 1]| <= room then before + [ms[k - 1]] else before
  {
  }

  ghost predicate SplitsFront(ms: seq<Message>, room: nat, k: nat)
    requires 0 < k <= |ms|
  {
    U.Kept(ms, room, k) ==
      if |ms[0]| <= room then [ms[0]] + U.Kept(ms[1..], room - |ms[0]|, k - 1) else U.Kept(ms[1..], room, k - 1)
  }

  lemma FirstKept(ms: seq<Message>, room: nat)
    requires ms != []
    ensures SplitsFront(ms, room, 1)
  {
    assert U.Kept(ms, room, 0) == [];
  }

  lemma {:induction false} KeptFront(ms: seq<Message>, room: nat, k: nat)
    requires 0 < k <= |ms|
    ensures SplitsFront(ms, room, k)
  {
    hide U.Kept, QueueBytes;
    if k == 1 {
      FirstKept(ms, room);
    } else {
      KeptFront(ms, room, k - 1);
      KeptLast(ms, room, k);
      assert ms[1..][k - 2] == ms[k - 1];
      if |ms[0]| <= room {
        KeptLast(ms[1..], room - |ms[0]|, k - 1);
        QueueBytesFront(ms[0], U.Kept(ms[1..], room - |ms[0]|, k - 2));
      } else {
        KeptLast(ms[1..], room, k - 1);
      }
    }
  }

  lemma QueueBytesFront(m: Message, ms: seq<Message>)
    ensures QueueBytes([m] + ms) == |m| + QueueBytes(ms)
  {
    QueueBytesTail([m] + ms);
    assert ([m] + ms)[1..] == ms;
  }

  lemma KeptNone(room: nat)
    ensures U.Kept([], room, 0) == []
  {
  }

  lemma {:induction false} MessagesQueued(r: U.URecv, ms: seq<Message>)
    requires r.memoryUsage <= r.maxMemory
    ensures UProcessMessages(r, ms).queue == r.queue + Fitting(r, ms)
    decreases |ms|
  {
    hide U.Kept, QueueBytes;
    if ms == [] {
      KeptNone(r.maxMemory - r.memoryUsage);
    } else {
      KeptFront(ms, r.maxMemory - r.memoryUsage, |ms|);
      MessagesQueued(U.UProcessMessage(r, ms[0]), ms[1..]);
    }
  }

  /** What a slice of message `m` does: nothing if there is no memory for `m`; the last one missing queues it. */
  ghost predicate SliceLands(r: U.URecv, r': U.URecv, m: Message, sl: Slice, now: Time)
    requires sl.sliceIndex < sl.numSlices
    requires sl.messageId in r.slices ==> |r.slices[sl.messageId].received| == sl.numSlices
  {
    var id := sl.messageId;
    if id !in r.slices && r.memoryUsage + sl.numSlices * SLICE_SIZE > r.maxMemory then r' == r
    else
      var had := if id in r.slices then r.slices[id].received else seq(sl.numSlices, _ => false);
      var has := had[sl.sliceIndex := true];
      if AllTrue(has) then r'.queue == r.queue + [m] && r'.slices == r.slices - {id} && r'.lastReceived == r.lastReceived - {id}
      else
        && r'.queue == r.queue && id in r'.slices && r'.slices[id].received == has
        && r'.slices - {id} == r.slices - {id} && r'.lastReceived == r.lastReceived[id := now]
  }

  lemma HeldLength(r: U.URecv, sent: seq<Message>, sliced: seq<Message>, now: Time, sl: Slice)
    requires U.URecvInv(r, sent, sliced, now) && RR.GenuineSlice(sliced, sl) && sl.messageId in r.slices
    ensures |r.slices[sl.messageId].received| == sl.numSlices && Slicing.Partial(r.slices[sl.messageId], sliced[sl.messageId])
    ensures sl.numSlices * SLICE_SIZE <= r.memoryUsage
  {
    RR.SliceBytesRemove(r.slices, sl.messageId);
  }

  lemma AbsorbLands(r: U.URecv, m: Message, sl: Slice, now: Time)
    requires sl.messageId in r.slices && Slicing.Partial(r.slices[sl.messageId], m) && sl.numSlices * SLICE_SIZE <= r.memoryUsage
    requires sl.sliceIndex < sl.numSlices == Slicing.NumSlices(|m|) == |r.slices[sl.messageId].received|
    requires sl.payload == Slicing.SliceOf(m, sl.sliceIndex)
    ensures SliceLands(r, U.Absorb(r, sl, now).state, m, sl, now)
  {
    var id := sl.messageId;
    Slicing.ProcessGenuine(r.slices[id], m, sl.sliceIndex);
    hide Slicing.Process, Slicing.Partial, AllTrue, Slicing.NumSlices;
    var c := Slicing.Process(r.slices[id], sl.sliceIndex, sl.payload).constructor_;
    U.RemoveSet(r.slices, id, c);
  }

  /** The memory for the message is reserved first. */
  lemma ReservedLands(r: U.URecv, r1: U.URecv, r': U.URecv, m: Message, sl: Slice, now: Time)
    requires U.UReserve(r, sl) == Some(r1) && sl.sliceIndex < sl.numSlices && sl.messageId in r1.slices
    requires sl.messageId in r.slices ==> |r.slices[sl.messageId].received| == sl.numSlices
    requires |r1.slices[sl.messageId].received| == sl.numSlices && SliceLands(r1, r', m, sl, now)
    ensures SliceLands(r, r', m, sl, now)
  {
    hide AllTrue;
    assert r1.slices - {sl.messageId} == r.slices - {sl.messageId};
    assert Slicing.Fresh(sl.numSlices).received == seq(sl.numSlices, _ => false);
  }

  lemma SliceIsTaken(r: U.URecv, sent: seq<Message>, sliced: seq<Message>, now: Time, sl: Slice)
    requires U.URecvInv(r, sent, sliced, now) && RR.GenuineSlice(sliced, sl)
    ensures sl.messageId in r.slices ==> |r.slices[sl.messageId].received| == sl.numSlices
    ensures SliceLands(r, U.UProcessSlice(r, sl, now).state, sliced[sl.messageId], sl, now)
  {
    U.UReserveInv(r, sent, sliced, now, sl);
    hide U.URecvInv, SliceLands, U.Absorb, U.UReserve, Slicing.NumSlices;
    if sl.messageId in r.slices {
      HeldLength(r, sent, sliced, now, sl);
    }
    if U.UReserve(r, sl).Some? {
      var r1 := U.UReserve(r, sl).value;
      HeldLength(r1, sent, sliced, now, sl);
      AbsorbLands(r1, sliced[sl.messageId], sl, now);
      ReservedLands(r, r1, U.Absorb(r1, sl, now).state, sliced[sl.messageId], sl, now);
    } else {
      NoRoomLands(r, sliced[sl.messageId], sl, now);
    }
  }

  lemma NoRoomLands(r: U.URecv, m: Message, sl: Slice, now: Time)
    requires U.UReserve(r, sl).None? && sl.sliceIndex < sl.numSlices
    ensures sl.messageId !in r.slices && SliceLands(r, r, m, sl, now)
  {
  }

  /**
   In every run: the small messages of an unreliable packet that fit into the channel's
   memory are queued, in order, and the others are dropped; a slice is put into its message,
   and the last one missing queues the message.
   */
  lemma UnreliableArrives(run: seq<System>, i: nat)
    requires IsRun(run) && i < |Last(run).xy.wire| && Alive(Last(run).y)
    ensures var s := Last(run);
      && Stats.WfStats(s.y.stats) && i < |s.xy.log|
      && var p := s.xy.log[i];
        var y' := ProcessPacket(s.y, s.xy.wire[i]);
        && (p.SmallUnreliable? && p.channelId in s.y.recvU ==>
             && p.channelId in y'.recvU && s.y.recvU[p.channelId].memoryUsage <= s.y.recvU[p.channelId].maxMemory
             && y'.recvU[p.channelId].queue == s.y.recvU[p.channelId].queue + Fitting(s.y.recvU[p.channelId], p.messages))
        && (p.UnreliableSlice? && p.channelId in s.y.recvU && !TooManySlices(p) ==>
             && p.channelId in y'.recvU && RR.GenuineSlice(At(s.hxy.sliced, p.channelId), p.slice)
             && var id := p.slice.messageId;
               var r := s.y.recvU[p.channelId];
               && (id in r.slices ==> |r.slices[id].received| == p.slice.numSlices)
               && SliceLands(r, y'.recvU[p.channelId], At(s.hxy.sliced, p.channelId)[id], p.slice, s.y.currentTime))
  {
    hide Step, Initial, SysInv, ReceiverOk, Decode, Stats.WfStats, AddAck, SliceLands, Fitting, U.UProcessSlice,
      UProcessMessages, RR.GenuineSlice, U.URecvInv;
    RunInv(run);
    var s := Last(run);
    Arriving(s, i);
    var p := s.xy.log[i];
    if (p.SmallUnreliable? || p.UnreliableSlice?) && p.channelId in s.y.recvU {
      UnreliableOk(s.y, s.hxy, p.channelId);
      var r := s.y.recvU[p.channelId];
      UMemory(r, At(s.hxy.usent, p.channelId), At(s.hxy.sliced, p.channelId), s.y.currentTime);
      if p.SmallUnreliable? {
        MessagesQueued(r, p.messages);
      } else {
        SliceIsTaken(r, At(s.hxy.usent, p.channelId), At(s.hxy.sliced, p.channelId), s.y.currentTime, p.slice);
      }
    }
  }

  lemma UMemory(r: U.URecv, sent: seq<Message>, sliced: seq<Message>, now: Time)
    requires U.URecvInv(r, sent, sliced, now)
    ensures r.memoryUsage <= r.maxMemory
  {
  }

  /** What is queued on an unreliable channel is handed out in order, and its memory given back. */
  lemma UnreliableTakes(e: Endpoint, c: byte)
    requires WfEndpoint(e) && Alive(e) && c in e.recvU && c !in e.recvR
    ensures var t := ReceiveMessage(e, c);
      && c in t.endpoint.recvU
      && var r, r' := e.recvU[c], t.endpoint.recvU[c];
        if r.queue == [] then t.message == None && t.endpoint.recvU == e.recvU
        else t.message == Some(r.queue[0]) && r'.queue == r.queue[1..] && r'.memoryUsage + |r.queue[0]| == r.memoryUsage
  {
    UReceiveMemory(e.recvU[c]);
    hide WfEndpoint;
    assert e.recvU[c := e.recvU[c]] == e.recvU;
  }

  /** The message with this id is handed out, and its memory given back. */
  ghost predicate HandsOut(r: RR.RecvState, r': RR.RecvState, m: Option<Message>, id: nat) {
    && id in r.messages && m == Some(r.messages[id]) && r'.messages == r.messages - {id}
    && r'.memoryUsage + |r.messages[id]| == r.memoryUsage && r'.slices == r.slices
  }

  /**
   An ordered channel hands out the next message exactly if it is there, an unordered one
   the one with the smallest id of those that are there.
   */
  lemma ReliableTakes(e: Endpoint, c: byte)
    requires WfEndpoint(e) && Alive(e) && c in e.recvR
    ensures var t := ReceiveMessage(e, c);
      && c in t.endpoint.recvR
      && var r, r' := e.recvR[c], t.endpoint.recvR[c];
        if (if r.order.Ordered? then r.oldest !in r.messages else r.messages == map[]) then t.message == None && r' == r
        else if r.order.Ordered? then HandsOut(r, r', t.message, r.oldest) && r'.oldest == r.oldest + 1
        else exists id :: HandsOut(r, r', t.message, id) && forall k :: k in r.messages ==> id <= k
  {
    RR.ReceiveMemory(e.recvR[c]);
    hide WfEndpoint, RR.CatchUp;
    var r := e.recvR[c];
    if r.order.Unordered? && r.messages != map[] {
      var id := First(r.messages.Keys);
      assert HandsOut(r, RR.Receive(r).state, RR.Receive(r).message, id);
    }
  }

  // ---------------------------------------------------------------- update

  /** Message `id` and all messages with smaller numbers have got no slice for three seconds. */
  ghost predicate GivenUp(r: U.URecv, now: Time, id: nat) {
    id in r.lastReceived && forall k :: k in r.lastReceived && k <= id ==> now - r.lastReceived[k] >= 3_000_000_000
  }

  lemma {:induction false} LostIff(last: map<nat, Time>, now: Time, keys: set<nat>, id: nat)
    requires keys <= last.Keys
    ensures id in U.Lost(last, now, keys) <==>
      id in keys && forall k :: k in keys && k <= id ==> now - last[k] >= 3_000_000_000
    decreases |keys|
  {
    if keys != {} {
      var k := First(keys);
      LostIff(last, now, keys - {k}, id);
      if id in keys && id != k {
        assert forall j :: j in keys && j <= id ==> j == k || j in keys - {k};
      }
    }
  }

  /**
   In every run `update` gives up exactly these messages on every unreliable channel, with
   the memory reserved for them, and keeps the others and what is queued; and it forgets
   exactly the sent packets that are three seconds old.
   */
  lemma UpdateGivesUp(run: seq<System>, duration: Time, c: byte, id: nat)
    requires IsRun(run)
    ensures var y := Last(run).y;
      && WfEndpoint(y)
      && var y' := Update(y, duration);
        && y'.currentTime == y.currentTime + duration && y'.status == y.status && y'.recvU.Keys == y.recvU.Keys
        && (c in y.recvU ==>
             var r, r' := y.recvU[c], y'.recvU[c];
             && (id in r'.slices <==> id in r.slices && !GivenUp(r, y'.currentTime, id))
             && (id in r'.slices ==> r'.slices[id] == r.slices[id])
             && r'.queue == r.queue
             && r.memoryUsage - r'.memoryUsage == RR.SliceBytes(r.slices) - RR.SliceBytes(r'.slices))
        && (id in y'.sentPackets <==>
             id in y.sentPackets && y.currentTime + duration - y.sentPackets[id].sentAt < 3_000_000_000)
        && (id in y'.sentPackets ==> y'.sentPackets[id] == y.sentPackets[id])
  {
    hide Step, Initial, SysInv, RR.SliceBytes, Expire;
    RunInv(run);
    SwapInv(Last(run));
    InvIsWf(Swap(Last(run)));
    UpdateExpiresOld(Swap(Last(run)), duration);
    var y := Last(run).y;
    var now := y.currentTime + duration;
    if c in y.recvU {
      LostIff(y.recvU[c].lastReceived, now, y.recvU[c].lastReceived.Keys, id);
    }
    hide WfEndpoint, Stats.UpdateStats;
  }

  lemma UpdateExpiresOld(s: System, duration: Time)
    requires SysInv(s)
    ensures var x := s.x;
      var now := x.currentTime + duration;
      Expire(x.sentPackets, now, x.packetSequence) ==
        map q | q in x.sentPackets && now - x.sentPackets[q].sentAt < 3_000_000_000 :: x.sentPackets[q]
  {
    hide DirInv, Expire;
    LB.EarlyExitIsFilter(s.x.sentPackets, s.x.currentTime + duration, s.x.packetSequence);
  }

  // ---------------------------------------------------------------- acknowledgements

  /**
   In every run, the sequence of a packet that is processed is among those to be acknowledged
   afterwards, unless the packet itself confirms that the peer has been told.
   */
  lemma ArrivalIsNoted(run: seq<System>, i: nat)
    requires IsRun(run) && i < |Last(run).xy.wire| && Alive(Last(run).y)
    ensures var s := Last(run);
      && Stats.WfStats(s.y.stats) && i < |s.xy.log|
      && (!TooManySlices(s.xy.log[i]) && !s.xy.log[i].Ack? ==>
           var rs, rs' := s.y.pendingAcks, ProcessPacket(s.y, s.xy.wire[i]).pendingAcks;
           forall q :: Covers(rs', q) <==> (Covers(rs, q) || q == i) && !(Overflows(rs, i) && InRange(rs[0], q)))
  {
    hide Step, Initial, SysInv, ReceiverOk, Decode, Stats.WfStats, AddAck, Genuine, ProcessEntries, RR.ProcessSlice,
      U.UProcessSlice, UProcessMessages, Covers;
    RunInv(run);
    var s := Last(run);
    Arriving(s, i);
    assert s.xy.log[i].sequence == i by { EmittedPacketsRoundTrip(run, i); }
    assert Normal(s.y.pendingAcks) by { SwapInv(s); InvIsWf(Swap(s)); NormalPending(s.y); }
    AddAckRefinesSet(s.y.pendingAcks, i);
  }

  lemma NormalPending(e: Endpoint)
    requires WfEndpoint(e)
    ensures Normal(e.pendingAcks)
  {
  }

  /** A tick that has something to acknowledge ends with a packet that acknowledges all of it. */
  lemma TickAcknowledges(e: Endpoint)
    requires WfEndpoint(e) && Alive(e)
    ensures var ps := GetPackets(e).packets;
      e.pendingAcks != [] ==> ps != [] && ps[|ps| - 1].Ack? && ps[|ps| - 1].ackRanges == e.pendingAcks
  {
    hide Gather, WfEndpoint, SerializeAll, Record;
  }
}
