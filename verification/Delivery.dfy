/**
 Two endpoints joined by a network that may lose, duplicate, delay and reorder payloads.
 The network state is everything ever handed to it: an undelivered payload is lost, one
 delivered again is duplicated.
 */
module Delivery {
  import opened Common
  import opened AckRanges
  import opened Wire
  import opened Stats
  import opened Connection
  import opened Direction
  import Slicing
  import RS = ReliableSend
  import RR = ReliableReceive
  import U = Unreliable
  import DR = DirectionReceive
  import DS = DirectionSend
  import DT = DirectionTick
  import LB = LossBound

  datatype System = System(x: Endpoint, y: Endpoint, xy: Link, yx: Link, hxy: History, hyx: History)

  function Swap(s: System): System {
    System(s.y, s.x, s.yx, s.xy, s.hyx, s.hxy)
  }

  /** What one endpoint can do. */
  datatype Action =
    | DoSend(channel: byte, message: Message)
    | DoReceive(channel: byte)
    | DoUpdate(duration: Time)
    | DoTick
    | DoDeliver(index: nat)
    | DoSetStatus(connected: bool)
    | DoDisconnect(reason: DisconnectReason)

  ghost predicate Enabled(s: System, a: Action) {
    && WfEndpoint(s.x) && !s.x.status.Panicked?
    && match a
       case DoSend(c, m) => c in s.x.sendR || c in s.x.sendU
       case DoReceive(c) => c in s.x.recvR || c in s.x.recvU
       case DoDeliver(i) => i < |s.yx.wire|
       case _ => true
  }

  /** Endpoint `x` acts. */
  ghost function Act(s: System, a: Action): System
    requires Enabled(s, a)
  {
    match a
    case DoSend(c, m) => s.(x := SendMessage(s.x, c, m), hxy := DS.NoteSent(s.hxy, s.x, c, m))
    case DoReceive(c) => s.(x := ReceiveMessage(s.x, c).endpoint, hyx := DR.NoteReceived(s.hyx, s.x, c))
    case DoUpdate(d) => s.(x := Update(s.x, d))
    case DoTick =>
      s.(x := GetPackets(s.x).endpoint, xy := DT.TickLink(s.x, s.xy), hxy := DT.TickHistory(s.x, s.hxy))
    case DoDeliver(i) =>
      var x' := ProcessPacket(s.x, s.yx.wire[i]);
      s.(x := x', hyx := DR.Note(s.hyx, i, Alive(x')))
    case DoSetStatus(connected) =>
      s.(x := if Alive(s.x) then s.x.(status := if connected then Connected else Connecting) else s.x)
    case DoDisconnect(reason) => s.(x := Disconnect(s.x, reason))
  }

  /** Either endpoint acts. */
  ghost predicate Step(s: System, s': System) {
    || (exists a :: Enabled(s, a) && s' == Act(s, a))
    || (exists a :: Enabled(Swap(s), a) && s' == Swap(Act(Swap(s), a)))
  }

  // ---------------------------------------------------------------- initial states

  ghost predicate FreshEndpoint(e: Endpoint) {
    && e.packetSequence == 0 && e.currentTime == 0 && e.sentPackets == map[] && e.pendingAcks == []
    && e.stats == NewStats() && e.status == Connecting
    && (forall c :: c in e.sendR ==> e.sendR[c] == RS.New(c, e.sendR[c].resendTime, e.sendR[c].maxMemory) &&
                                     e.sendR[c].maxMemory < WORD_LIMIT)
    && (forall c :: c in e.sendU ==> e.sendU[c] == U.NewSend(c, e.sendU[c].maxMemory) &&
                                     e.sendU[c].maxMemory < WORD_LIMIT)
    && (forall c :: c in e.recvR ==> e.recvR[c] == RR.New(e.recvR[c].maxMemory, e.recvR[c].order.Ordered?))
    && (forall c :: c in e.recvU ==> e.recvU[c] == U.NewRecv(e.recvU[c].maxMemory))
    && OrderOk(e)
  }

  const NO_HISTORY: History := History(map[], map[], map[], map[], map[], {})

  /** Two new endpoints; their channel configurations need not match. */
  ghost predicate Initial(s: System) {
    && FreshEndpoint(s.x) && FreshEndpoint(s.y)
    && s.xy == Link([], []) && s.yx == Link([], [])
    && s.hxy == NO_HISTORY && s.hyx == NO_HISTORY
  }

  ghost predicate IsRun(run: seq<System>) {
    && |run| > 0 && Initial(run[0])
    && forall i :: 0 <= i < |run| - 1 ==> Step(run[i], run[i + 1])
  }

  // ---------------------------------------------------------------- the invariant

  ghost predicate OrderOk(e: Endpoint) {
    forall k :: 0 <= k < |e.sendOrder| ==> Exists(e.sendOrder[k], e.sendR.Keys, e.sendU.Keys)
  }

  /** Some counter no longer fits a variable-length integer. */
  ghost predicate Overflowed(e: Endpoint) {
    || e.packetSequence > VARINT_LIMIT
    || (exists c :: c in e.sendR && e.sendR[c].nextId > VARINT_LIMIT)
    || (exists c :: c in e.sendU && e.sendU[c].slicedId > VARINT_LIMIT)
  }

  ghost predicate LocalOk(e: Endpoint) {
    LB.LossInv(e) && OrderOk(e) && (e.status.Panicked? ==> Overflowed(e))
  }

  ghost predicate SysInv(s: System) {
    && DirInv(s.x, s.y, s.xy, s.yx, s.hxy)
    && DirInv(s.y, s.x, s.yx, s.xy, s.hyx)
    && LocalOk(s.x) && LocalOk(s.y)
  }

  lemma SwapInv(s: System)
    requires SysInv(s)
    ensures SysInv(Swap(s))
  {
    hide DirInv, LocalOk;
  }

  lemma WfReceiving(e: Endpoint, h: History)
    requires ReceiverOk(e, h)
    ensures forall c :: c in e.recvR ==> RR.MemoryExact(e.recvR[c])
    ensures forall c :: c in e.recvU ==> UMemoryExact(e.recvU[c])
  {
    hide RR.MemoryExact, RR.Ledger, RR.Faithful, OutOk, Within, Slicing.Partial, RR.SliceBytes;
  }

  /** The invariant implies what the operations need. */
  lemma InvIsWf(s: System)
    requires SysInv(s)
    ensures WfEndpoint(s.x) && DT.PendingEnd(s.x) && WfStats(s.x.stats)
  {
    WfReceiving(s.x, s.hyx);
    hide ReceiverOk, RR.MemoryExact, UMemoryExact, KnowledgeOk, LinkOk, TrackOk, ChannelsOk, ProcessedOk, AcksOk, AckLogOk,
      RS.WfSend, U.WfUSend, LB.Balanced, LB.InOrder, Words, Within;
  }

  // ---------------------------------------------------------------- the start

  lemma FreshReceiver(y: Endpoint)
    requires FreshEndpoint(y)
    ensures ReceiverOk(y, NO_HISTORY)
  {
    hide RR.RecvInv, RS.New, RR.New, U.NewSend, U.NewRecv, U.URecvInv, NewStats, OutOk, Within, OrderOk;
    forall c | c in y.recvR
      ensures RR.RecvInv(y.recvR[c], [], []) && OutOk([], [], [])
    {
      RR.NewInv(y.recvR[c].maxMemory, y.recvR[c].order.Ordered?);
      NothingOut();
    }
    forall c | c in y.recvU
      ensures U.URecvInv(y.recvU[c], [], [], 0) && Within<Message>([], [])
    {
      FreshUnreliable(y.recvU[c].maxMemory);
    }
  }

  lemma NothingOut()
    ensures OutOk([], [], [])
  {
  }

  lemma FreshUnreliable(maxMemory: nat)
    ensures U.URecvInv(U.NewRecv(maxMemory), [], [], 0) && Within<Message>([], [])
  {
  }

  lemma FreshDirection(x: Endpoint, y: Endpoint)
    requires FreshEndpoint(x) && FreshEndpoint(y)
    ensures DirInv(x, y, Link([], []), Link([], []), NO_HISTORY)
  {
    FreshReceiver(y);
    hide ReceiverOk, NewStats;
  }

  lemma FreshLocal(e: Endpoint)
    requires FreshEndpoint(e)
    ensures LocalOk(e)
  {
    forall j | 0 <= j < SIZE
      ensures LB.Tracked(e.sentPackets, 0, j) == 0
    {
    }
  }

  lemma InitialInv(s: System)
    requires Initial(s)
    ensures SysInv(s)
  {
    hide FreshEndpoint, DirInv, LocalOk;
    FreshDirection(s.x, s.y);
    FreshDirection(s.y, s.x);
    FreshLocal(s.x);
    FreshLocal(s.y);
  }

  // ---------------------------------------------------------------- the steps

  lemma SendStep(s: System, c: byte, m: Message)
    requires SysInv(s) && Enabled(s, DoSend(c, m))
    ensures var s' := Act(s, DoSend(c, m));
      && DirInv(s'.x, s'.y, s'.xy, s'.yx, s'.hxy)
      && DirInv(s'.y, s'.x, s'.yx, s'.xy, s'.hyx)
      && LB.LossInv(s'.x)
  {
    hide DirInv, LB.LossInv, SendMessage, DS.NoteSent, OrderOk;
    DS.SendSends(s.x, s.y, s.xy, s.yx, s.hxy, c, m);
    LB.MessageStepsLoss(s.x, c, m);
    SendFrame(s.x, c, m);
    DR.ReceiverFrame(s.y, s.x, SendMessage(s.x, c, m), s.yx, s.xy, s.hyx);
  }

  lemma SendFrame(e: Endpoint, c: byte, m: Message)
    requires c in e.sendR || c in e.sendU
    ensures var r := SendMessage(e, c, m);
      && r.recvR == e.recvR && r.recvU == e.recvU && r.currentTime == e.currentTime
      && r.pendingAcks == e.pendingAcks && (Alive(r) ==> Alive(e))
      && r.sendOrder == e.sendOrder && r.sendR.Keys == e.sendR.Keys && r.sendU.Keys == e.sendU.Keys
      && (r.status.Panicked? ==> e.status.Panicked?)
  {
  }

  lemma ReceiveStep(s: System, c: byte)
    requires SysInv(s) && Enabled(s, DoReceive(c))
    ensures var s' := Act(s, DoReceive(c));
      && DirInv(s'.x, s'.y, s'.xy, s'.yx, s'.hxy)
      && DirInv(s'.y, s'.x, s'.yx, s'.xy, s'.hyx)
      && LB.LossInv(s'.x)
  {
    hide LB.LossInv, ReceiveMessage, DR.NoteReceived, OrderOk, SenderOk, ReceiverOk, ProcessedOk, PendingOk, KnowledgeOk,
      WfEndpoint;
    DR.ReceiveReceives(s.y, s.x, s.yx, s.xy, s.hyx, c);
    LB.MessageStepsLoss(s.x, c, []);
    ReceiveFrame(s.x, c);
    DS.InformedFrame(s.x, ReceiveMessage(s.x, c).endpoint, s.y, s.xy, s.hxy);
  }

  lemma ReceiveFrame(e: Endpoint, c: byte)
    requires WfEndpoint(e) && (c in e.recvR || c in e.recvU)
    ensures var r := ReceiveMessage(e, c).endpoint;
      && r.packetSequence == e.packetSequence && r.sentPackets == e.sentPackets
      && r.sendR == e.sendR && r.sendU == e.sendU && r.status == e.status && r.sendOrder == e.sendOrder
  {
    hide WfEndpoint, RR.Receive, U.UReceive;
  }

  lemma UpdateStep(s: System, d: Time)
    requires SysInv(s) && Enabled(s, DoUpdate(d))
    ensures var s' := Act(s, DoUpdate(d));
      && DirInv(s'.x, s'.y, s'.xy, s'.yx, s'.hxy)
      && DirInv(s'.y, s'.x, s'.yx, s'.xy, s'.hyx)
      && LB.LossInv(s'.x)
  {
    hide DirInv, LB.LossInv, Update, WfEndpoint;
    DS.UpdateSends(s.x, s.y, s.xy, s.yx, s.hxy, d);
    DR.UpdateReceives(s.y, s.x, s.yx, s.xy, s.hyx, d);
    LB.UpdateLoss(s.x, d);
  }

  lemma TickStep(s: System)
    requires SysInv(s) && Enabled(s, DoTick)
    ensures var s' := Act(s, DoTick);
      && DirInv(s'.x, s'.y, s'.xy, s'.yx, s'.hxy)
      && DirInv(s'.y, s'.x, s'.yx, s'.xy, s'.hyx)
      && LB.LossInv(s'.x)
  {
    hide DirInv, LB.LossInv, GetPackets, WfEndpoint, DT.TickLink, DT.TickHistory, DT.PendingEnd, OrderOk, Overflowed;
    InvIsWf(s);
    DT.TickSends(s.x, s.y, s.xy, s.yx, s.hxy);
    DT.TickReceives(s.x, s.y, s.xy, s.yx, s.hxy, s.hyx);
    LB.GetPacketsLoss(s.x);
  }

  lemma DeliverStep(s: System, i: nat)
    requires SysInv(s) && Enabled(s, DoDeliver(i))
    ensures var s' := Act(s, DoDeliver(i));
      && DirInv(s'.x, s'.y, s'.xy, s'.yx, s'.hxy)
      && DirInv(s'.y, s'.x, s'.yx, s'.xy, s'.hyx)
      && LB.LossInv(s'.x) && !s'.x.status.Panicked?
  {
    InvIsWf(s);
    WirePacket(s.y, s.yx, s.hyx, i) by { DirParts(s.y, s.x, s.yx, s.xy, s.hyx); }
    DirParts(s.y, s.x, s.yx, s.xy, s.hyx);
    hide DirInv, LB.LossInv, ProcessPacket, WfEndpoint, ReceiverOk, SenderOk, Genuine, Encodable, Encode;
    DS.DeliverSends(s.x, s.y, s.xy, s.yx, s.hxy, s.hyx, i);
    DR.DeliverReceives(s.y, s.x, s.yx, s.xy, s.hyx, i);
    LB.ProcessPacketLoss(s.x, s.yx.wire[i]);
  }

  lemma DirParts(x: Endpoint, y: Endpoint, xy: Link, yx: Link, h: History)
    requires DirInv(x, y, xy, yx, h)
    ensures SenderOk(x, xy, h) && ReceiverOk(y, h)
  {
  }

  lemma WirePacket(x: Endpoint, xy: Link, h: History, i: nat)
    requires SenderOk(x, xy, h) && i < |xy.wire|
    ensures i < |xy.log| && Genuine(h, xy.log[i]) && Encodable(xy.log[i]) && xy.wire[i] == Encode(xy.log[i])
  {
    hide Genuine, Encodable, Encode, SendROk, SendUOk, TrackOk, ChannelsOk;
  }

  // ---------------------------------------------------------------- the configuration never changes

  ghost predicate SameConfig(e: Endpoint, e': Endpoint) {
    e'.sendOrder == e.sendOrder && e'.sendR.Keys == e.sendR.Keys && e'.sendU.Keys == e.sendU.Keys
  }

  lemma AckOneConfig(e: Endpoint, s: nat)
    requires WfStats(e.stats)
    ensures SameConfig(e, AckOne(e, s))
  {
    hide AckMessages, RS.AckSlice, AckedLargest, CountAcked;
  }

  lemma {:induction false} AckAllConfig(e: Endpoint, ss: seq<nat>)
    requires WfStats(e.stats)
    ensures SameConfig(e, AckAll(e, ss))
  {
    hide AckOne, WfStats;
    if ss != [] {
      AckAllConfig(e, ss[..|ss| - 1]);
      AckOneConfig(AckAll(e, ss[..|ss| - 1]), ss[|ss| - 1]);
    }
  }

  lemma ProcessConfig(e: Endpoint, bytes: seq<byte>)
    requires WfStats(e.stats)
    ensures SameConfig(e, ProcessPacket(e, bytes))
  {
    hide Decode, AckAll, NewAcks, Handle, AddAck, WfStats;
    if Alive(e) && Decode(bytes).Ok? {
      var p := Decode(bytes).value;
      var noted := e.(pendingAcks := AddAck(e.pendingAcks, p.sequence));
      if p.Ack? {
        HandleAckConfig(noted, p);
      } else {
        LB.HandleFrame(noted, p);
      }
    }
  }

  lemma HandleAckConfig(e: Endpoint, p: Packet)
    requires WfStats(e.stats) && p.Ack?
    ensures SameConfig(e, Handle(e, p))
  {
    AckAllConfig(e, NewAcks(e.sentPackets, p.ackRanges));
  }

  lemma TickConfig(e: Endpoint)
    requires WfEndpoint(e)
    ensures SameConfig(e, GetPackets(e).endpoint)
  {
    hide WfEndpoint, GetPackets, Gather, AllPackets, Record, SerializeAll, Consecutive, CountSent;
    if Alive(e) {
      GetPacketsShape(e);
    } else {
      DeadTick(e);
    }
  }

  lemma ConfigOrder(e: Endpoint, e': Endpoint)
    requires OrderOk(e) && SameConfig(e, e')
    ensures OrderOk(e')
  {
    hide Exists;
  }

  // ---------------------------------------------------------------- panics

  lemma {:induction false} RangesAreFew(rs: seq<Range>)
    requires Normal(rs) && rs != []
    ensures 2 * |rs| <= rs[|rs| - 1].end + 1
  {
    if |rs| > 1 {
      RangesAreFew(rs[..|rs| - 1]);
    }
  }

  lemma SlicesAreFew(len: nat)
    requires len < WORD_LIMIT
    ensures Slicing.NumSlices(len) < VARINT_LIMIT
  {
  }

  lemma WordsWithin(ms: seq<Message>, all: seq<Message>)
    requires Within(ms, all) && Words(all)
    ensures Words(ms)
  {
    forall i | 0 <= i < |ms|
      ensures |ms[i]| < WORD_LIMIT
    {
      assert ms[i] in all;
    }
  }

  /** Genuine slices can be written as long as message numbers can. */
  lemma SliceEncodable(ms: seq<Message>, sl: Slice)
    requires RR.GenuineSlice(ms, sl) && Words(ms) && |ms| <= VARINT_LIMIT
    ensures SliceFits(sl)
  {
    SlicesAreFew(|ms[sl.messageId]|);
  }

  lemma SmallEncodable(ms: seq<Message>, es: seq<Entry>)
    requires (forall e :: e in es ==> GenuineEntry(ms, e)) && |ms| <= VARINT_LIMIT
    ensures forall e :: e in es ==> EntryFits(e)
  {
  }

  lemma {:induction false} MessageInSize(ms: seq<Message>, m: Message)
    requires m in ms
    ensures |m| <= U.MessagesSize(ms)
  {
    var n := |ms| - 1;
    if m != ms[n] {
      assert m in ms[..n];
      MessageInSize(ms[..n], m);
    }
  }

  lemma MessagesEncodable(ms: seq<Message>)
    requires U.MessagesSize(ms) <= U.MAX_UBATCH
    ensures forall m :: m in ms ==> |m| < VARINT_LIMIT
  {
    forall m | m in ms
      ensures |m| < VARINT_LIMIT
    {
      MessageInSize(ms, m);
    }
  }

  /** The bounds on a channel's counters that serialization relies on. */
  ghost predicate Countable(h: History, p: Packet) {
    match p
    case SmallReliable(_, c, _) => |At(h.sent, c)| <= VARINT_LIMIT
    case ReliableSlice(_, c, _) => |At(h.sent, c)| <= VARINT_LIMIT && Words(At(h.sent, c))
    case UnreliableSlice(_, c, _) => |At(h.sliced, c)| <= VARINT_LIMIT && Words(At(h.sliced, c))
    case _ => true
  }

  /** A genuine packet is encodable unless a counter has passed 2^62. */
  lemma GenuineEncodable(h: History, p: Packet)
    requires Genuine(h, p) && Countable(h, p) && p.sequence < VARINT_LIMIT
    ensures Encodable(p)
  {
    match p {
      case SmallReliable(_, c, es) => SmallEncodable(At(h.sent, c), es);
      case ReliableSlice(_, c, sl) => SliceEncodable(At(h.sent, c), sl);
      case SmallUnreliable(_, c, ms) => MessagesEncodable(ms);
      case UnreliableSlice(_, c, sl) => SliceEncodable(At(h.sliced, c), sl);
      case Ack(_, rs) => RangesAreFew(rs);
    }
  }

  lemma {:induction false} PanicNeedsPacket(ps: seq<Packet>)
    requires SerializeAll(ps).VarintPanic?
    ensures exists i :: 0 <= i < |ps| && !Encodable(ps[i])
  {
    hide Encodable, Encode;
    var n := |ps| - 1;
    if SerializeAll(ps[..n]).VarintPanic? {
      PanicNeedsPacket(ps[..n]);
      var i :| 0 <= i < n && !Encodable(ps[..n][i]);
      assert !Encodable(ps[i]);
    } else {
      assert !Encodable(ps[n]);
    }
  }

  lemma TickCountable(x: Endpoint, xy: Link, h: History, p: Packet, before: Endpoint)
    requires SenderOk(x, xy, h) && !Overflowed(x) && SameConfig(before, x) && DT.TickPacket(p, before, h)
    ensures Countable(h, p)
  {
    if p.SmallReliable? || p.ReliableSlice? {
      assert p.channelId in x.sendR;
      assert Holds(x.sendR[p.channelId], p.channelId, At(h.sent, p.channelId));
    } else if p.UnreliableSlice? {
      var c := p.channelId;
      assert c in x.sendU && UHolds(x.sendU[c], c, At(h.usent, c), At(h.sliced, c));
      WordsWithin(At(h.sliced, c), At(h.usent, c));
    }
  }

  lemma SendingParts(s: System)
    requires SysInv(s)
    ensures SendROk(s.x.sendR, s.hxy) && SendUOk(s.x.sendU, s.hxy) && KnowledgeOk(s.x.sendR, s.y.recvR)
  {
    hide SendROk, SendUOk, KnowledgeOk, ReceiverOk, ProcessedOk, PendingOk, LinkOk, TrackOk, ChannelsOk, LocalOk;
  }

  lemma TickPacketsAre(s: System)
    requires SysInv(s) && WfEndpoint(s.x) && Alive(s.x)
    ensures DT.TickPacketsOk(AllPackets(s.x), s.x, DT.TickHistory(s.x, s.hxy))
  {
    hide WfEndpoint, Gather, AllPackets, SysInv, SendROk, SendUOk, KnowledgeOk, DT.GatherFine, DT.TickPacketsOk,
      DT.NoteSliced;
    InvIsWf(s);
    SendingParts(s);
    DT.GatherKeeps(s.x, s.y.recvR, s.hxy, |s.x.sendOrder|);
    DT.TickPackets(s.x, s.y.recvR, s.hxy);
  }

  /** Serialization panics only after a counter has passed the range of variable-length integers. */
  lemma TickPanics(s: System)
    requires SysInv(s) && WfEndpoint(s.x) && !s.x.status.Panicked?
    ensures var x' := GetPackets(s.x).endpoint; x'.status.Panicked? ==> Overflowed(x')
  {
    hide WfEndpoint, GetPackets, AllPackets, SerializeAll, DT.TickHistory, DT.TickLink, SysInv, Overflowed, DT.TickPacket,
      Encodable, Record, Gather, Consecutive;
    var x' := GetPackets(s.x).endpoint;
    if Alive(s.x) {
      GetPacketsShape(s.x);
      if x'.status.Panicked? && !Overflowed(x') {
        var ps := AllPackets(s.x);
        PanicNeedsPacket(ps);
        var i :| 0 <= i < |ps| && !Encodable(ps[i]);
        TickPacketsAre(s);
        assert DT.TickPacket(ps[i], s.x, DT.TickHistory(s.x, s.hxy));
        TickPacketFits(s, ps[i], i);
      }
    } else {
      DeadTick(s.x);
    }
  }

  lemma TickPacketFits(s: System, p: Packet, i: nat)
    requires SysInv(s) && WfEndpoint(s.x) && Alive(s.x) && !Overflowed(GetPackets(s.x).endpoint)
    requires i < |AllPackets(s.x)| && p == AllPackets(s.x)[i]
    requires DT.TickPacket(p, s.x, DT.TickHistory(s.x, s.hxy))
    ensures Encodable(p)
  {
    var x', h' := GetPackets(s.x).endpoint, DT.TickHistory(s.x, s.hxy);
    hide SysInv, WfEndpoint, GetPackets, AllPackets, DT.TickHistory, DT.TickLink, Encodable, Gather, Record, SerializeAll,
      Genuine, Countable;
    GetPacketsShape(s.x);
    TickConfig(s.x);
    TickKeepsSender(s);
    TickCountable(x', DT.TickLink(s.x, s.xy), h', p, s.x);
    GenuineEncodable(h', p);
  }

  lemma TickKeepsSender(s: System)
    requires SysInv(s) && WfEndpoint(s.x)
    ensures SenderOk(GetPackets(s.x).endpoint, DT.TickLink(s.x, s.xy), DT.TickHistory(s.x, s.hxy))
  {
    InvIsWf(s);
    hide LocalOk, WfEndpoint, GetPackets, DT.TickLink, DT.TickHistory, SenderOk, ReceiverOk, ProcessedOk, PendingOk,
      KnowledgeOk, DT.PendingEnd;
    DT.TickSends(s.x, s.y, s.xy, s.yx, s.hxy);
  }

  // ---------------------------------------------------------------- every step keeps the invariant

  /** The directions and the statistics after any action. */
  lemma ActDirections(s: System, a: Action)
    requires SysInv(s) && Enabled(s, a)
    ensures var s' := Act(s, a);
      && DirInv(s'.x, s'.y, s'.xy, s'.yx, s'.hxy)
      && DirInv(s'.y, s'.x, s'.yx, s'.xy, s'.hyx)
      && LB.LossInv(s'.x)
  {
    match a {
      case DoSend(c, m) => SendStep(s, c, m);
      case DoReceive(c) => ReceiveStep(s, c);
      case DoUpdate(d) => UpdateStep(s, d);
      case DoTick => TickStep(s);
      case DoDeliver(i) => DeliverStep(s, i);
      case _ => StatusStep(s, a);
    }
  }

  lemma StatusStep(s: System, a: Action)
    requires SysInv(s) && Enabled(s, a) && (a.DoSetStatus? || a.DoDisconnect?)
    ensures var s' := Act(s, a);
      && DirInv(s'.x, s'.y, s'.xy, s'.yx, s'.hxy)
      && DirInv(s'.y, s'.x, s'.yx, s'.xy, s'.hyx)
      && LB.LossInv(s'.x)
  {
    hide LB.LossInv, WfEndpoint, SenderOk, ReceiverOk, ProcessedOk, PendingOk, KnowledgeOk, OrderOk;
    var x' := Act(s, a).x;
    DR.ReceiverFrame(s.y, s.x, x', s.yx, s.xy, s.hyx);
    DS.InformedFrame(s.x, x', s.y, s.xy, s.hxy);
    LB.LossFrame(s.x, x');
  }

  lemma ActConfig(s: System, a: Action)
    requires SysInv(s) && Enabled(s, a)
    ensures SameConfig(s.x, Act(s, a).x)
  {
    InvIsWf(s);
    hide SysInv, WfEndpoint, SendMessage, ReceiveMessage, GetPackets, ProcessPacket, Expire, UpdateStats, U.Discard,
      DT.TickLink, DT.TickHistory, DS.NoteSent, DR.NoteReceived;
    match a {
      case DoSend(c, m) => SendFrame(s.x, c, m);
      case DoReceive(c) => ReceiveFrame(s.x, c);
      case DoTick => TickConfig(s.x);
      case DoDeliver(i) => ProcessConfig(s.x, s.yx.wire[i]);
      case _ =>
    }
  }

  lemma ActPanics(s: System, a: Action)
    requires SysInv(s) && Enabled(s, a)
    ensures Act(s, a).x.status.Panicked? ==> Overflowed(Act(s, a).x)
  {
    hide SysInv, WfEndpoint, SendMessage, ReceiveMessage, GetPackets, ProcessPacket, Expire, UpdateStats, U.Discard,
      DT.TickLink, DT.TickHistory, DS.NoteSent, DR.NoteReceived, Overflowed;
    match a {
      case DoSend(c, m) => SendFrame(s.x, c, m);
      case DoReceive(c) => ReceiveFrame(s.x, c);
      case DoTick => TickPanics(s);
      case DoDeliver(i) => DeliverStep(s, i);
      case _ =>
    }
  }

  lemma ActInv(s: System, a: Action)
    requires SysInv(s) && Enabled(s, a)
    ensures SysInv(Act(s, a))
  {
    ActDirections(s, a);
    ActConfig(s, a);
    ActPanics(s, a);
    assert OrderOk(s.x);
    hide DirInv, LB.LossInv, SameConfig, OrderOk, Overflowed, WfEndpoint;
    ConfigOrder(s.x, Act(s, a).x);
    ActKeepsPeer(s, a);
  }

  lemma ActKeepsPeer(s: System, a: Action)
    requires Enabled(s, a)
    ensures Act(s, a).y == s.y
  {
  }

  lemma StepInv(s: System, s': System)
    requires SysInv(s) && Step(s, s')
    ensures SysInv(s')
  {
    hide SysInv, Act, Enabled;
    SwapInv(s);
    if a :| Enabled(s, a) && s' == Act(s, a) {
      ActInv(s, a);
    } else {
      var b :| Enabled(Swap(s), b) && s' == Swap(Act(Swap(s), b));
      ActInv(Swap(s), b);
      SwapInv(Act(Swap(s), b));
    }
  }

  /** The invariant holds in the last state of every run. */
  lemma {:induction false} RunInv(run: seq<System>)
    requires IsRun(run)
    ensures SysInv(run[|run| - 1])
  {
    hide SysInv, Step, Initial;
    var n := |run| - 1;
    if n == 0 {
      InitialInv(run[0]);
    } else {
      RunInv(run[..n]);
      assert Step(run[n - 1], run[n - 1 + 1]);
      StepInv(run[n - 1], run[n]);
    }
  }
}
