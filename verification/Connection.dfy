/**
 The connection layer (`RenetClient` in renet/src/remote_connection.rs) as functions of
 its state. A Rust panic is the status `Panicked`; smoothing of the round-trip time is
 not modelled.
 */
module Connection {
  import opened Common
  import opened AckRanges
  import opened Wire
  import opened Stats
  import RS = ReliableSend
  import SS = SendScheduling
  import RR = ReliableReceive
  import U = Unreliable

  const DISCARD_AFTER: Time := 3_000_000_000
  const BUFFER_SIZE: nat := 1400

  datatype PacketInfo =
    | NoInfo
    | ReliableMessages(channelId: byte, ids: seq<nat>)
    | ReliableSliceMessage(channelId: byte, messageId: nat, sliceIndex: nat)
    | AckInfo(largestAcked: nat)

  datatype PacketSent = PacketSent(sentAt: Time, info: PacketInfo)

  datatype ChannelOrder = Reliable(id: byte) | Unreliable(id: byte)

  datatype DisconnectReason =
    | Transport
    | DisconnectedByClient
    | PacketSerialization
    | PacketDeserialization
    | ReceivedInvalidChannelId(channelId: byte)
    | SendChannelError(channelId: byte)
    | ReceiveChannelError(channelId: byte, error: RR.RecvError)

  datatype Status = Connected | Connecting | Disconnected(reason: DisconnectReason) | Panicked

  datatype Endpoint = Endpoint(
    packetSequence: nat,
    currentTime: Time,
    sentPackets: map<nat, PacketSent>,
    pendingAcks: seq<Range>,
    sendOrder: seq<ChannelOrder>,
    sendU: map<byte, U.USend>,
    recvU: map<byte, U.URecv>,
    sendR: map<byte, RS.SendState>,
    recvR: map<byte, RR.RecvState>,
    stats: StatsState,
    bytesPerTick: nat,
    status: Status)

  predicate Alive(e: Endpoint) {
    e.status.Connected? || e.status.Connecting?
  }

  /** `disconnect_with_reason`. */
  function Disconnect(e: Endpoint, reason: DisconnectReason): Endpoint {
    if Alive(e) then e.(status := Disconnected(reason)) else e
  }

  /** The channel is configured. */
  predicate Exists(order: ChannelOrder, reliable: set<byte>, unreliable: set<byte>) {
    match order case Reliable(c) => c in reliable case Unreliable(c) => c in unreliable
  }

  /** What must hold for the operations below to be defined. */
  ghost predicate WfEndpoint(e: Endpoint) {
    && WfStats(e.stats)
    && (forall c :: c in e.sendR ==> RS.WfSend(e.sendR[c]))
    && (forall c :: c in e.sendU ==> U.WfUSend(e.sendU[c]))
    && (forall c :: c in e.recvR ==> RR.MemoryExact(e.recvR[c]))
    && (forall c :: c in e.recvU ==> UMemoryExact(e.recvU[c]))
    && (forall k :: 0 <= k < |e.sendOrder| ==> Exists(e.sendOrder[k], e.sendR.Keys, e.sendU.Keys))
    && Normal(e.pendingAcks)
    && (forall s :: s in e.sentPackets ==> s < e.packetSequence)
  }

  ghost predicate UMemoryExact(r: U.URecv) {
    r.memoryUsage == QueueBytes(r.queue) + RR.SliceBytes(r.slices) <= r.maxMemory
  }

  // ---------------------------------------------------------------- messages

  /** `send_message` on an existing channel. */
  ghost function SendMessage(e: Endpoint, c: byte, m: Message): Endpoint
    requires c in e.sendR || c in e.sendU
  {
    if !Alive(e) then e
    else if c in e.sendR then
      var s := RS.SendMessage(e.sendR[c], m);
      if s.None? then Disconnect(e, SendChannelError(c)) else e.(sendR := e.sendR[c := s.value])
    else e.(sendU := e.sendU[c := U.Enqueue(e.sendU[c], m)])
  }

  datatype Taken = Taken(endpoint: Endpoint, message: Option<Message>)

  /** `receive_message` on an existing channel. */
  ghost function ReceiveMessage(e: Endpoint, c: byte): Taken
    requires WfEndpoint(e) && (c in e.recvR || c in e.recvU)
  {
    if !Alive(e) then Taken(e, None)
    else if c in e.recvR then
      RR.ReceiveMemory(e.recvR[c]);
      var r := RR.Receive(e.recvR[c]);
      Taken(e.(recvR := e.recvR[c := r.state]), r.message)
    else
      UReceiveMemory(e.recvU[c]);
      var r := U.UReceive(e.recvU[c]);
      Taken(e.(recvU := e.recvU[c := r.0]), r.1)
  }

  lemma UReceiveMemory(r: U.URecv)
    requires UMemoryExact(r)
    ensures r.queue != [] ==> |r.queue[0]| <= r.memoryUsage
  {
    if r.queue != [] {
      QueueBytesTail(r.queue);
    }
  }

  // ---------------------------------------------------------------- update

  /** The first tracked packet at or after `k` that is younger than three seconds. */
  function FirstFresh(sent: map<nat, PacketSent>, now: Time, k: nat, n: nat): nat
    requires k <= n
    decreases n - k
  {
    if k == n || (k in sent && now - sent[k].sentAt < DISCARD_AFTER) then k
    else FirstFresh(sent, now, k + 1, n)
  }

  /** The scan for lost packets stops at the first one that is not lost. */
  ghost function Expire(sent: map<nat, PacketSent>, now: Time, n: nat): map<nat, PacketSent> {
    map s | s in sent && FirstFresh(sent, now, 0, n) <= s :: sent[s]
  }

  /** Every unreliable channel gives up what was not completed in time. */
  ghost function DiscardAll(recvU: map<byte, U.URecv>, now: Time): map<byte, U.URecv>
    requires forall c :: c in recvU ==> RR.SliceBytes(recvU[c].slices) <= recvU[c].memoryUsage
  {
    map c | c in recvU :: U.Discard(recvU[c], now)
  }

  /** `update`: statistics first, then old slices, then lost packets. */
  ghost function Update(e: Endpoint, duration: Time): Endpoint
    requires WfEndpoint(e)
  {
    var now := e.currentTime + duration;
    e.(currentTime := now,
       stats := UpdateStats(e.stats, now),
       recvU := DiscardAll(e.recvU, now),
       sentPackets := Expire(e.sentPackets, now, e.packetSequence))
  }

  // ---------------------------------------------------------------- incoming data

  function ProcessEntries(r: RR.RecvState, es: seq<Entry>): RR.RecvOutcome
    decreases |es|
  {
    if es == [] then RR.RecvOutcome(r, None)
    else
      var o := RR.ProcessMessage(r, es[0].payload, es[0].id);
      if o.error.Some? then o else ProcessEntries(o.state, es[1..])
  }

  function UProcessMessages(r: U.URecv, ms: seq<Message>): U.URecv
    decreases |ms|
  {
    if ms == [] then r else UProcessMessages(U.UProcessMessage(r, ms[0]), ms[1..])
  }

  /** Reacts to the outcome of a receive channel. */
  function OnError(e: Endpoint, c: byte, error: Option<RR.RecvError>): Endpoint {
    if error.None? then e
    else if error.value.RecvPanic? then e.(status := Panicked)
    else Disconnect(e, ReceiveChannelError(c, error.value))
  }

  ghost function HandleReliable(e: Endpoint, c: byte, o: RR.RecvOutcome): Endpoint {
    OnError(e.(recvR := e.recvR[c := o.state]), c, o.error)
  }

  // ---------------------------------------------------------------- acknowledgements

  /** The tracked sequences in `[lo, hi)` in ascending order. */
  function KeysIn(sent: map<nat, PacketSent>, lo: nat, hi: nat): seq<nat>
    decreases hi
  {
    if hi <= lo then [] else KeysIn(sent, lo, hi - 1) + if hi - 1 in sent then [hi - 1] else []
  }

  /** The tracked sequences that the ranges acknowledge. */
  function NewAcks(sent: map<nat, PacketSent>, rs: seq<Range>): seq<nat> {
    if rs == [] then [] else
      NewAcks(sent, rs[..|rs| - 1]) + KeysIn(sent, rs[|rs| - 1].start, rs[|rs| - 1].end)
  }

  function AckMessages(s: RS.SendState, ids: seq<nat>): RS.AckOutcome
    decreases |ids|
  {
    if ids == [] then RS.Acked(s)
    else
      var o := RS.AckMessage(s, ids[0]);
      if o.AckPanic? then o else AckMessages(o.state, ids[1..])
  }

  ghost function OnAcked(e: Endpoint, c: byte, o: RS.AckOutcome): Endpoint {
    if o.AckPanic? then e.(status := Panicked) else e.(sendR := e.sendR[c := o.state])
  }

  /** What an acknowledged packet carried is now known to have arrived. */
  ghost function ApplyAckInfo(e: Endpoint, info: PacketInfo): Endpoint {
    match info
    case NoInfo => e
    case ReliableMessages(c, ids) =>
      if c !in e.sendR then e.(status := Panicked) else OnAcked(e, c, AckMessages(e.sendR[c], ids))
    case ReliableSliceMessage(c, id, i) =>
      if c !in e.sendR then e.(status := Panicked) else OnAcked(e, c, RS.AckSlice(e.sendR[c], id, i))
    case AckInfo(largest) => e.(pendingAcks := AckedLargest(e.pendingAcks, largest))
  }

  ghost function AckOne(e: Endpoint, s: nat): Endpoint
    requires WfStats(e.stats)
  {
    if s !in e.sentPackets then e.(status := Panicked)
    else
      var p := e.sentPackets[s];
      ApplyAckInfo(e.(sentPackets := e.sentPackets - {s},
                      stats := CountAcked(e.stats, p.sentAt, e.currentTime)), p.info)
  }

  /** Acknowledges the listed sequences one after the other; a panic stops everything. */
  ghost function AckAll(e: Endpoint, ss: seq<nat>): (r: Endpoint)
    requires WfStats(e.stats)
    ensures WfStats(r.stats)
  {
    if ss == [] then e
    else
      var prev := AckAll(e, ss[..|ss| - 1]);
      if prev.status.Panicked? then prev else AckOne(prev, ss[|ss| - 1])
  }

  /** Dispatches a decoded packet whose sequence was already noted. */
  ghost function Handle(e: Endpoint, p: Packet): Endpoint
    requires WfStats(e.stats)
  {
    match p
    case SmallReliable(_, c, es) =>
      if c !in e.recvR then Disconnect(e, ReceivedInvalidChannelId(c))
      else HandleReliable(e, c, ProcessEntries(e.recvR[c], es))
    case ReliableSlice(_, c, sl) =>
      if c !in e.recvR then Disconnect(e, ReceivedInvalidChannelId(c))
      else HandleReliable(e, c, RR.ProcessSlice(e.recvR[c], sl))
    case SmallUnreliable(_, c, ms) =>
      if c !in e.recvU then Disconnect(e, ReceivedInvalidChannelId(c))
      else e.(recvU := e.recvU[c := UProcessMessages(e.recvU[c], ms)])
    case UnreliableSlice(_, c, sl) =>
      if c !in e.recvU then Disconnect(e, ReceivedInvalidChannelId(c))
      else
        var o := U.UProcessSlice(e.recvU[c], sl, e.currentTime);
        OnError(e.(recvU := e.recvU[c := o.state]), c, o.error)
    case Ack(_, rs) => AckAll(e, NewAcks(e.sentPackets, rs))
  }

  /** `process_packet`. */
  ghost function ProcessPacket(e: Endpoint, bytes: seq<byte>): Endpoint
    requires WfStats(e.stats)
  {
    if !Alive(e) then e
    else
      var p := Decode(bytes);
      if p.Err? then Disconnect(e, PacketDeserialization)
      else Handle(e.(pendingAcks := AddAck(e.pendingAcks, p.value.sequence)), p.value)
  }

  // ---------------------------------------------------------------- outgoing packets

  /** The state of the loop over the channels; `sliced` lists the messages each unreliable channel cut up. */
  datatype Gathered = Gathered(
    sendR: map<byte, RS.SendState>,
    sendU: map<byte, U.USend>,
    packets: seq<Packet>,
    sequence: nat,
    available: nat,
    sliced: map<byte, seq<Message>>)

  function At<T>(m: map<byte, seq<T>>, c: byte): seq<T> {
    if c in m then m[c] else []
  }

  ghost predicate WfGathered(g: Gathered) {
    && (forall c :: c in g.sendR ==> RS.WfSend(g.sendR[c]))
    && (forall c :: c in g.sendU ==> U.WfUSend(g.sendU[c]))
  }

  /** One channel contributes its packets. */
  ghost function GatherOne(g: Gathered, now: Time, order: ChannelOrder): (r: Gathered)
    requires WfGathered(g)
    requires Exists(order, g.sendR.Keys, g.sendU.Keys)
    ensures WfGathered(r) && r.sendR.Keys == g.sendR.Keys && r.sendU.Keys == g.sendU.Keys
  {
    match order
    case Reliable(c) =>
      SS.GetPacketsWf(g.sendR[c], g.sequence, g.available, now);
      var t := SS.GetPackets(g.sendR[c], g.sequence, g.available, now);
      Gathered(g.sendR[c := t.state], g.sendU, g.packets + t.packets, t.sequence, t.available, g.sliced)
    case Unreliable(c) =>
      U.UTickIsSound(g.sendU[c], g.sequence, g.available);
      var t := U.UGetPackets(g.sendU[c], g.sequence, g.available);
      Gathered(g.sendR, g.sendU[c := t.state], g.packets + t.packets, t.sequence, t.available,
               g.sliced[c := At(g.sliced, c) + t.sliced])
  }

  /** The first `k` channels in configuration order. */
  ghost function Gather(e: Endpoint, k: nat): (r: Gathered)
    requires WfEndpoint(e) && k <= |e.sendOrder|
    ensures WfGathered(r) && r.sendR.Keys == e.sendR.Keys && r.sendU.Keys == e.sendU.Keys
  {
    if k == 0 then Gathered(e.sendR, e.sendU, [], e.packetSequence, e.bytesPerTick, map[])
    else GatherOne(Gather(e, k - 1), e.currentTime, e.sendOrder[k - 1])
  }

  /** The acknowledgement packet is last. */
  ghost function AllPackets(e: Endpoint): seq<Packet>
    requires WfEndpoint(e)
  {
    var g := Gather(e, |e.sendOrder|);
    g.packets + if e.pendingAcks == [] then [] else [Ack(g.sequence, e.pendingAcks)]
  }

  function Ids(es: seq<Entry>): (ids: seq<nat>)
    ensures |ids| == |es| && forall i :: 0 <= i < |es| ==> ids[i] == es[i].id
  {
    seq(|es|, i requires 0 <= i < |es| => es[i].id)
  }

  /** What is remembered about a sent packet. */
  function InfoOf(p: Packet): PacketInfo {
    match p
    case SmallReliable(_, c, es) => ReliableMessages(c, Ids(es))
    case ReliableSlice(_, c, sl) => ReliableSliceMessage(c, sl.messageId, sl.sliceIndex)
    case SmallUnreliable(_, _, _) => NoInfo
    case UnreliableSlice(_, _, _) => NoInfo
    case Ack(_, rs) => if rs == [] || rs[|rs| - 1].end == 0 then NoInfo else AckInfo(rs[|rs| - 1].end - 1)
  }

  function Record(sent: map<nat, PacketSent>, ps: seq<Packet>, now: Time): map<nat, PacketSent> {
    if ps == [] then sent
    else
      var p := ps[|ps| - 1];
      Record(sent, ps[..|ps| - 1], now)[p.sequence := PacketSent(now, InfoOf(p))]
  }

  datatype Serialized = Payloads(payloads: seq<seq<byte>>) | TooLong | VarintPanic

  /** Serializes packets in order; the first one that does not fit decides the outcome. */
  ghost function SerializeAll(ps: seq<Packet>): Serialized {
    if ps == [] then Payloads([])
    else
      var prev := SerializeAll(ps[..|ps| - 1]);
      var p := ps[|ps| - 1];
      if !prev.Payloads? then prev
      else if !Encodable(p) then VarintPanic
      else if |Encode(p)| > BUFFER_SIZE then TooLong
      else Payloads(prev.payloads + [Encode(p)])
  }

  datatype Output = Output(endpoint: Endpoint, packets: seq<Packet>, payloads: seq<seq<byte>>)

  /** Remembers the generated packets and serializes them. */
  ghost function SendOut(e: Endpoint, ps: seq<Packet>): Output
    requires WfStats(e.stats)
  {
    var e' := e.(sentPackets := Record(e.sentPackets, ps, e.currentTime));
    match SerializeAll(ps)
    case VarintPanic => Output(e'.(status := Panicked), ps, [])
    case TooLong => Output(Disconnect(e', PacketSerialization), ps, [])
    case Payloads(b) => Output(e'.(stats := CountSent(e.stats, |b|)), ps, b)
  }

  /** `get_packets_to_send`; `packets` are all packets generated, `payloads` those handed out. */
  ghost function GetPackets(e: Endpoint): Output
    requires WfEndpoint(e)
  {
    if !Alive(e) then Output(e, [], [])
    else
      var g := Gather(e, |e.sendOrder|);
      SendOut(e.(sendR := g.sendR,
                 sendU := g.sendU,
                 packetSequence := g.sequence + if e.pendingAcks == [] then 0 else 1),
              AllPackets(e))
  }

  // ---------------------------------------------------------------- one tick over all channels

  /** The packets so far are numbered from `first` and have used up exactly their payload. */
  ghost predicate Accounted(g: Gathered, first: nat, budget: nat) {
    && Consecutive(g.packets, first)
    && g.sequence == first + |g.packets|
    && g.available + TotalPayload(g.packets) == budget
  }

  lemma ConcatAccounted(g: Gathered, g': Gathered, ps: seq<Packet>, first: nat, budget: nat)
    requires Accounted(g, first, budget)
    requires Consecutive(ps, g.sequence) && g'.sequence == g.sequence + |ps|
    requires g'.packets == g.packets + ps && g'.available + TotalPayload(ps) == g.available
    ensures Accounted(g', first, budget)
  {
    ConsecutiveConcat(g.packets, ps, first);
    TotalPayloadConcat(g.packets, ps);
  }

  lemma GatherOneAccounts(g: Gathered, now: Time, order: ChannelOrder, first: nat, budget: nat)
    requires WfGathered(g) && Accounted(g, first, budget)
    requires Exists(order, g.sendR.Keys, g.sendU.Keys)
    ensures Accounted(GatherOne(g, now, order), first, budget)
  {
    match order {
      case Reliable(c) =>
        SS.TickIsSound(g.sendR[c], g.sequence, g.available, now);
        hide Accounted, SS.GetPackets;
        ConcatAccounted(g, GatherOne(g, now, order),
                        SS.GetPackets(g.sendR[c], g.sequence, g.available, now).packets, first, budget);
      case Unreliable(c) =>
        U.UTickIsSound(g.sendU[c], g.sequence, g.available);
        hide Accounted, U.UGetPackets;
        ConcatAccounted(g, GatherOne(g, now, order),
                        U.UGetPackets(g.sendU[c], g.sequence, g.available).packets, first, budget);
    }
  }

  /**
   Over all channels together: packets are numbered consecutively and the payload they
   carry is exactly what was taken from the byte budget.
   */
  lemma {:induction false} GatherAccounts(e: Endpoint, k: nat)
    requires WfEndpoint(e) && k <= |e.sendOrder|
    ensures Accounted(Gather(e, k), e.packetSequence, e.bytesPerTick)
  {
    hide GatherOne, WfGathered, RS.WfSend, U.WfUSend, RR.MemoryExact, UMemoryExact, Normal, Exists, WfStats;
    if k > 0 {
      GatherAccounts(e, k - 1);
      GatherOneAccounts(Gather(e, k - 1), e.currentTime, e.sendOrder[k - 1], e.packetSequence, e.bytesPerTick);
    }
  }

  /** One tick hands out consecutive sequences, so no tracked packet is ever overwritten. */
  lemma AllPacketsConsecutive(e: Endpoint)
    requires WfEndpoint(e)
    ensures Consecutive(AllPackets(e), e.packetSequence)
    ensures Gather(e, |e.sendOrder|).sequence + (if e.pendingAcks == [] then 0 else 1) ==
            e.packetSequence + |AllPackets(e)|
    ensures TotalPayload(AllPackets(e)) <= e.bytesPerTick
  {
    hide WfEndpoint, Gather, WfGathered;
    GatherAccounts(e, |e.sendOrder|);
    var g := Gather(e, |e.sendOrder|);
    if e.pendingAcks != [] {
      AppendPacket(g.packets, Ack(g.sequence, e.pendingAcks));
    } else {
      assert AllPackets(e) == g.packets;
    }
  }

  lemma WfStatsOf(e: Endpoint)
    requires WfEndpoint(e)
    ensures WfStats(e.stats)
  {
  }

  lemma OrderExists(e: Endpoint, k: nat)
    requires WfEndpoint(e) && k < |e.sendOrder|
    ensures Exists(e.sendOrder[k], Gather(e, k).sendR.Keys, Gather(e, k).sendU.Keys)
  {
  }

  lemma HeldWf(g: Gathered, c: byte)
    requires WfGathered(g) && c in g.sendR
    ensures SS.AllWf(g.sendR[c].unacked)
  {
  }

  lemma SendOutShape(e: Endpoint, ps: seq<Packet>)
    requires WfStats(e.stats) && Alive(e)
    ensures
      var o := SendOut(e, ps);
      var e' := o.endpoint;
      && o.packets == ps
      && e' == e.(sentPackets := Record(e.sentPackets, ps, e.currentTime), stats := e'.stats, status := e'.status)
      && (Alive(e') ==> SerializeAll(ps) == Payloads(o.payloads) && e'.status == e.status &&
                        e'.stats == CountSent(e.stats, |o.payloads|))
      && (!Alive(e') ==> o.payloads == [] && e'.stats == e.stats)
      && (e'.status.Panicked? <==> SerializeAll(ps).VarintPanic?)
  {
    hide Record, SerializeAll, CountSent, WfStats;
  }

  /** What a tick does to the fields of the endpoint. */
  lemma GetPacketsShape(e: Endpoint)
    requires WfEndpoint(e) && Alive(e)
    ensures
      var o := GetPackets(e);
      var ps := AllPackets(e);
      var g := Gather(e, |e.sendOrder|);
      var e' := o.endpoint;
      && o.packets == ps
      && Consecutive(ps, e.packetSequence)
      && e' == e.(sendR := g.sendR, sendU := g.sendU, packetSequence := e.packetSequence + |ps|,
                  sentPackets := Record(e.sentPackets, ps, e.currentTime), stats := e'.stats, status := e'.status)
      && (Alive(e') ==> SerializeAll(ps) == Payloads(o.payloads) && e'.status == e.status &&
                        e'.stats == CountSent(e.stats, |o.payloads|))
      && (!Alive(e') ==> o.payloads == [] && e'.stats == e.stats)
      && (e'.status.Panicked? <==> SerializeAll(ps).VarintPanic?)
  {
    hide WfEndpoint, Gather, AllPackets, Record, SerializeAll, Consecutive, TotalPayload, CountSent, WfStats, SendOut,
      WfGathered;
    AllPacketsConsecutive(e);
    assert WfStats(e.stats) by { WfStatsOf(e); }
    var g := Gather(e, |e.sendOrder|);
    SendOutShape(e.(sendR := g.sendR, sendU := g.sendU, packetSequence := e.packetSequence + |AllPackets(e)|), AllPackets(e));
  }

  lemma DeadTick(e: Endpoint)
    requires WfEndpoint(e) && !Alive(e)
    ensures GetPackets(e) == Output(e, [], [])
  {
  }
}
