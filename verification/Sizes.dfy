/** How long serialized packets can be. */
module Sizes {
  import opened Common
  import opened AckRanges
  import opened Wire
  import opened Connection
  import opened Direction
  import opened Delivery
  import opened Theorems
  import Stats
  import SS = SendScheduling
  import U = Unreliable
  import DR = DirectionReceive
  import DT = DirectionTick

  /** The longest packet that carries messages. */
  const MAX_MESSAGE_PACKET: nat := 1236

  /** The longest payload of a netcode packet, `NETCODE_MAX_PAYLOAD_BYTES`. */
  const MAX_PAYLOAD: nat := 1300

  lemma {:induction false} EntriesSizeFront(es: seq<Entry>)
    requires es != []
    ensures SS.EntriesSize(es) == SS.SerializedSize(es[0]) + SS.EntriesSize(es[1..])
  {
    var n := |es| - 1;
    if n > 0 {
      EntriesSizeFront(es[..n]);
      assert es[..n][1..] == es[1..][..n - 1];
    }
  }

  /** The size by which batches are formed is the size on the wire. */
  lemma {:induction false} EntriesLength(es: seq<Entry>)
    requires forall e :: e in es ==> EntryFits(e)
    ensures |PutEntries(es)| == SS.EntriesSize(es)
    decreases |es|
  {
    hide PutVarint;
    if es != [] {
      EntriesLength(es[1..]);
      EntriesSizeFront(es);
    }
  }

  lemma {:induction false} MessagesSizeFront(ms: seq<Message>)
    requires ms != []
    ensures U.MessagesSize(ms) == U.MessageSize(ms[0]) + U.MessagesSize(ms[1..])
  {
    var n := |ms| - 1;
    if n > 0 {
      MessagesSizeFront(ms[..n]);
      assert ms[..n][1..] == ms[1..][..n - 1];
    }
  }

  lemma {:induction false} MessagesLength(ms: seq<Message>)
    requires forall m :: m in ms ==> |m| < VARINT_LIMIT
    ensures |PutMessages(ms)| == U.MessagesSize(ms)
    decreases |ms|
  {
    hide PutVarint;
    if ms != [] {
      MessagesLength(ms[1..]);
      MessagesSizeFront(ms);
    }
  }

  /** The bytes of the gaps and lengths of ranges below `previousStart`. */
  ghost function GapsSize(rs: seq<Range>, previousStart: nat): nat
    requires Normal(rs) && Below(rs, previousStart)
  {
    if rs == [] then 0
    else
      NormalInit(rs);
      var r := rs[|rs| - 1];
      VarintLen(previousStart - r.end - 1) + VarintLen(r.end - 1 - r.start) + GapsSize(rs[..|rs| - 1], r.start)
  }

  /** The exact length of an acknowledgement on the wire. */
  ghost function AckSize(sequence: nat, rs: seq<Range>): nat
    requires Normal(rs) && rs != []
  {
    NormalInit(rs);
    var last := rs[|rs| - 1];
    1 + VarintLen(sequence) + VarintLen(last.end - 1) + VarintLen(last.end - 1 - last.start) + VarintLen(|rs| - 1) +
    GapsSize(rs[..|rs| - 1], last.start)
  }

  lemma {:induction false} GapsLength(rs: seq<Range>, previousStart: nat)
    requires Normal(rs) && Below(rs, previousStart) && previousStart < VARINT_LIMIT
    ensures |PutGaps(rs, previousStart)| == GapsSize(rs, previousStart) <= 16 * |rs|
  {
    hide PutVarint, Normal;
    if rs != [] {
      NormalInit(rs);
      GapsLength(rs[..|rs| - 1], rs[|rs| - 1].start);
    }
  }

  /** The longest an acknowledgement of `n` ranges can get. */
  ghost function AckBound(n: nat): nat {
    17 + 16 * n
  }

  lemma RangesLength(sequence: nat, rs: seq<Range>)
    requires Normal(rs) && rs != [] && rs[|rs| - 1].end <= VARINT_LIMIT && |rs| < VARINT_LIMIT
    ensures 1 + VarintLen(sequence) + |PutRanges(rs)| == AckSize(sequence, rs)
    ensures |PutRanges(rs)| <= 8 + 16 * |rs|
  {
    hide PutVarint, Normal;
    NormalInit(rs);
    GapsLength(rs[..|rs| - 1], rs[|rs| - 1].start);
  }

  lemma SliceLength(sl: Slice)
    requires SliceFits(sl) && |sl.payload| <= SLICE_SIZE
    ensures |PutSlice(sl)| <= 1226
  {
    hide PutVarint;
  }

  /** The length of what follows the type and the sequence. */
  lemma BodyLength(h: History, p: Packet)
    requires Genuine(h, p) && Encodable(p)
    ensures |PutBody(p)| <= if p.Ack? then 8 + 16 * |p.ackRanges| else 1227
    ensures p.SmallReliable? ==> |p.entries| < 0x10000
    ensures p.SmallUnreliable? ==> |p.messages| < 0x10000
  {
    hide PutEntries, PutMessages, PutRanges, PutSlice;
    match p {
      case SmallReliable(_, _, es) =>
        EntriesLength(es);
        DR.EntriesAreFew(es);
      case SmallUnreliable(_, _, ms) =>
        MessagesLength(ms);
        DR.MessagesAreFew(ms);
      case Ack(_, rs) => RangesLength(p.sequence, rs);
      case ReliableSlice(_, _, sl) => SliceLength(sl);
      case UnreliableSlice(_, _, sl) => SliceLength(sl);
    }
  }

  /** A genuine packet's length on the wire. */
  lemma EncodedSize(h: History, p: Packet)
    requires Genuine(h, p) && Encodable(p)
    ensures !p.Ack? ==> |Encode(p)| <= MAX_MESSAGE_PACKET <= MAX_PAYLOAD
    ensures p.Ack? ==> |Encode(p)| <= AckBound(|p.ackRanges|)
    ensures p.Ack? && |p.ackRanges| <= MAX_RANGES ==> |Encode(p)| <= MAX_PAYLOAD
    ensures p.SmallReliable? ==> |p.entries| < 0x10000
    ensures p.SmallUnreliable? ==> |p.messages| < 0x10000
  {
    BodyLength(h, p);
    hide PutVarint, PutBody, Genuine;
  }

  lemma AckLength(p: Packet)
    requires p.Ack? && Encodable(p)
    ensures |Encode(p)| == AckSize(p.sequence, p.ackRanges)
  {
    RangesLength(p.sequence, p.ackRanges);
    hide PutVarint, PutRanges, AckSize;
  }

  /** The acknowledgement is longer than `limit` on the wire. */
  ghost predicate LongAck(p: Packet, limit: nat) {
    p.Ack? && Normal(p.ackRanges) && p.ackRanges != [] && AckSize(p.sequence, p.ackRanges) > limit
  }

  lemma LongIff(h: History, p: Packet, limit: nat)
    requires Genuine(h, p) && Encodable(p) && MAX_MESSAGE_PACKET <= limit
    ensures |Encode(p)| > limit <==> LongAck(p, limit)
  {
    hide Encode, AckSize;
    EncodedSize(h, p);
    if p.Ack? {
      AckLength(p);
    }
  }

  /**
   In every run each payload fits a netcode packet, except exactly the acknowledgements
   whose length exceeds that.
   */
  lemma PayloadFitsIff(run: seq<System>, i: nat)
    requires IsRun(run) && i < |Last(run).xy.wire|
    ensures var link := Last(run).xy;
      i < |link.log| && (|link.wire[i]| <= MAX_PAYLOAD <==> !LongAck(link.log[i], MAX_PAYLOAD))
  {
    var s := Last(run);
    hide Step, Initial, Encode, SysInv, LongAck;
    RunInv(run);
    SenderPart(s);
    hide SendROk, SendUOk, TrackOk, ChannelsOk, Genuine, Encodable;
    LongIff(s.hxy, s.xy.log[i], MAX_PAYLOAD);
  }

  // ---------------------------------------------------------------- when a tick fails

  ghost predicate AllEncodable(ps: seq<Packet>) {
    forall i :: 0 <= i < |ps| ==> Encodable(ps[i])
  }

  /** With nothing to panic on, serialization fails exactly if some packet is too long. */
  lemma {:induction false} TooLongIff(ps: seq<Packet>)
    requires AllEncodable(ps)
    ensures !SerializeAll(ps).VarintPanic?
    ensures SerializeAll(ps).TooLong? <==> exists i :: 0 <= i < |ps| && |Encode(ps[i])| > BUFFER_SIZE
  {
    hide Encodable, Encode;
    if ps != [] {
      var n := |ps| - 1;
      TooLongIff(ps[..n]);
      if i :| 0 <= i < n && |Encode(ps[..n][i])| > BUFFER_SIZE {
        assert ps[..n][i] == ps[i];
      }
      if i :| 0 <= i < |ps| && |Encode(ps[i])| > BUFFER_SIZE {
        assert i < n ==> ps[..n][i] == ps[i];
      }
    }
  }

  lemma TickEncodable(s: System)
    requires SysInv(s) && WfEndpoint(s.x) && Alive(s.x) && !Overflowed(GetPackets(s.x).endpoint)
    ensures AllEncodable(AllPackets(s.x))
    ensures forall i :: 0 <= i < |AllPackets(s.x)| ==> Genuine(DT.TickHistory(s.x, s.hxy), AllPackets(s.x)[i])
  {
    hide SysInv, WfEndpoint, GetPackets, AllPackets, DT.TickHistory, Overflowed, Encodable, Genuine;
    TickPacketsAre(s);
    var ps := AllPackets(s.x);
    forall i | 0 <= i < |ps|
      ensures Encodable(ps[i])
    {
      assert DT.TickPacket(ps[i], s.x, DT.TickHistory(s.x, s.hxy));
      TickPacketFits(s, ps[i], i);
    }
  }

  /** The acknowledgement that the next tick would send. */
  ghost function NextAck(e: Endpoint): Packet
    requires WfEndpoint(e)
  {
    Ack(Gather(e, |e.sendOrder|).sequence, e.pendingAcks)
  }

  lemma NextAckIsLast(e: Endpoint)
    requires WfEndpoint(e) && e.pendingAcks != []
    ensures AllPackets(e) != [] && AllPackets(e)[|AllPackets(e)| - 1] == NextAck(e)
  {
    hide WfEndpoint, Gather;
  }

  /** Only the last packet of a tick can be an acknowledgement. */
  lemma OnlyAckIsNext(s: System, i: nat)
    requires SysInv(s) && WfEndpoint(s.x) && i < |AllPackets(s.x)| && AllPackets(s.x)[i].Ack?
    ensures s.x.pendingAcks != [] && AllPackets(s.x)[i] == NextAck(s.x)
  {
    hide WfEndpoint, Gather, SysInv, SendROk, SendUOk, KnowledgeOk, DT.GatherFine;
    SendingParts(s);
    DT.GatherKeeps(s.x, s.y.recvR, s.hxy, |s.x.sendOrder|);
    var g := Gather(s.x, |s.x.sendOrder|);
    DT.GatherFineParts(g, s.y.recvR, s.hxy);
    assert forall j :: 0 <= j < |g.packets| ==> !g.packets[j].Ack?;
  }

  /** Some packet of the tick is too long exactly if the acknowledgement is. */
  lemma TickTooLongIff(s: System)
    requires SysInv(s) && WfEndpoint(s.x) && Alive(s.x) && !Overflowed(GetPackets(s.x).endpoint)
    ensures AllEncodable(AllPackets(s.x))
    ensures (exists i :: 0 <= i < |AllPackets(s.x)| && |Encode(AllPackets(s.x)[i])| > BUFFER_SIZE) <==>
            s.x.pendingAcks != [] && LongAck(NextAck(s.x), BUFFER_SIZE)
  {
    hide SysInv, WfEndpoint, GetPackets, AllPackets, DT.TickHistory, Overflowed, Encodable, Genuine, Encode, AckSize, NextAck;
    TickEncodable(s);
    var ps := AllPackets(s.x);
    if i: nat :| i < |ps| && |Encode(ps[i])| > BUFFER_SIZE {
      LongIff(DT.TickHistory(s.x, s.hxy), ps[i], BUFFER_SIZE);
      OnlyAckIsNext(s, i);
    }
    if s.x.pendingAcks != [] {
      NextAckIsLast(s.x);
      LongIff(DT.TickHistory(s.x, s.hxy), ps[|ps| - 1], BUFFER_SIZE);
    }
  }

  /**
   In every run in which no counter has passed 2^62, `get_packets_to_send` fails, and
   disconnects, exactly if the acknowledgement alone does not fit the buffer of 1400 bytes.
   */
  lemma TickFailsIff(run: seq<System>)
    requires IsRun(run) && WfEndpoint(Last(run).x) && Alive(Last(run).x) && !Overflowed(GetPackets(Last(run).x).endpoint)
    ensures var x := Last(run).x;
      !Alive(GetPackets(x).endpoint) <==> x.pendingAcks != [] && LongAck(NextAck(x), BUFFER_SIZE)
    ensures !Alive(GetPackets(Last(run).x).endpoint) ==>
      GetPackets(Last(run).x).endpoint.status == Disconnected(PacketSerialization) && GetPackets(Last(run).x).payloads == []
  {
    hide Step, Initial, SysInv, WfEndpoint, Encode, Encodable, SerializeAll, Overflowed, LongAck, AllPackets, GetPackets, NextAck;
    RunInv(run);
    var s := Last(run);
    TickTooLongIff(s);
    TooLongIff(AllPackets(s.x));
    TickOutcome(s.x);
  }

  /** Up to 86 ranges always fit. */
  lemma FewRangesFit(sequence: nat, rs: seq<Range>)
    requires Normal(rs) && 0 < |rs| <= 86 && rs[|rs| - 1].end <= VARINT_LIMIT
    ensures AckSize(sequence, rs) <= BUFFER_SIZE
  {
    RangesLength(sequence, rs);
  }

  lemma TickOutcome(e: Endpoint)
    requires WfEndpoint(e) && Alive(e) && !SerializeAll(AllPackets(e)).VarintPanic?
    ensures Alive(GetPackets(e).endpoint) <==> !SerializeAll(AllPackets(e)).TooLong?
    ensures !Alive(GetPackets(e).endpoint) ==>
      GetPackets(e).endpoint.status == Disconnected(PacketSerialization) && GetPackets(e).payloads == []
  {
    hide WfEndpoint, AllPackets, SerializeAll, Record, Gather;
  }

  // ---------------------------------------------------------------- an acknowledgement that does not fit

  lemma {:induction false} SinglesNormal(first: nat, k: nat)
    ensures Normal(Singles(first, k)) && Below(Singles(first, k), first + 2 * k)
  {
  }

  lemma {:induction false} SinglesGaps(first: nat, k: nat)
    ensures Normal(Singles(first, k)) && Below(Singles(first, k), first + 2 * k)
    ensures GapsSize(Singles(first, k), first + 2 * k) == 2 * k
  {
    SinglesNormal(first, k);
    if k > 0 {
      assert Singles(first, k)[..k - 1] == Singles(first, k - 1);
      SinglesGaps(first, k - 1);
    }
  }

  lemma SinglesSize(sequence: nat, first: nat, k: nat)
    requires k > 0
    ensures Normal(Singles(first, k)) && AckSize(sequence, Singles(first, k)) >= 2 * k + 3
  {
    SinglesNormal(first, k);
    assert Singles(first, k)[..k - 1] == Singles(first, k - 1);
    SinglesGaps(first, k - 1);
  }

  /** An endpoint that only receives, on unreliable channel 0. */
  function Listener(maxMemory: nat): Endpoint {
    Endpoint(0, 0, map[], [], [], map[], map[0 := U.NewRecv(maxMemory)], map[], map[], Stats.NewStats(), 60_000, Connected)
  }

  /** The payload of a packet with one empty message. */
  ghost function Ping(s: nat): seq<byte>
    requires s < VARINT_LIMIT
  {
    Encode(SmallUnreliable(s, 0, [[]]))
  }

  ghost predicate Numbers(ss: seq<nat>) {
    forall i :: 0 <= i < |ss| ==> ss[i] < VARINT_LIMIT
  }

  /** The endpoint after packets with these sequences, in this order. */
  ghost function Feed(ss: seq<nat>): (e: Endpoint)
    requires Numbers(ss)
    ensures Stats.WfStats(e.stats)
  {
    if ss == [] then Listener(1000)
    else
      var e := Feed(ss[..|ss| - 1]);
      PingKeepsStats(e, ss[|ss| - 1]);
      ProcessPacket(e, Ping(ss[|ss| - 1]))
  }

  lemma PingDecodes(s: nat)
    requires s < VARINT_LIMIT
    ensures Decode(Ping(s)) == Ok(SmallUnreliable(s, 0, [[]]))
  {
    hide Encode, Decode;
    var p := SmallUnreliable(s, 0, [[]]);
    assert Encode(p) + [] == Encode(p);
    PacketRoundTrip(p, []);
  }

  lemma PingKeepsStats(e: Endpoint, s: nat)
    requires Stats.WfStats(e.stats) && s < VARINT_LIMIT
    ensures ProcessPacket(e, Ping(s)).stats == e.stats
  {
    hide Ping, Decode, Stats.WfStats, AddAck, UProcessMessages;
    PingDecodes(s);
  }

  lemma EmptyMessageFits(r: U.URecv)
    requires UMemoryExact(r)
    ensures UMemoryExact(UProcessMessages(r, [[]]))
  {
    QueueBytesAppend(r.queue, []);
    var one: seq<Message> := [[]];
    assert one[1..] == [];
  }

  /** The packets change nothing but the acknowledgements and the channel. */
  lemma {:induction false} FeedAcks(ss: seq<nat>)
    requires Numbers(ss)
    ensures var e := Feed(ss);
      && e.recvU.Keys == {0} && UMemoryExact(e.recvU[0])
      && e == Listener(1000).(pendingAcks := AddAll(ss), recvU := e.recvU)
  {
    hide Ping, Decode, Stats.WfStats, AddAck, UProcessMessages, Stats.NewStats;
    if ss == [] {
      assert UMemoryExact(U.NewRecv(1000)) by { FreshUnreliable(1000); }
    } else {
      FeedAcks(ss[..|ss| - 1]);
      PingDecodes(ss[|ss| - 1]);
      EmptyMessageFits(Feed(ss[..|ss| - 1]).recvU[0]);
    }
  }

  lemma OnlyAck(e: Endpoint)
    requires WfEndpoint(e) && e.sendOrder == [] && e.packetSequence == 0 && e.pendingAcks != []
    ensures AllPackets(e) == [Ack(0, e.pendingAcks)]
  {
    hide WfEndpoint, WfGathered;
    assert Gather(e, 0).packets == [];
  }

  lemma OneTooLong(p: Packet)
    requires Encodable(p) && |Encode(p)| > BUFFER_SIZE
    ensures SerializeAll([p]) == TooLong
  {
    hide Encodable, Encode;
    assert [p][..0] == [];
  }

  /** An endpoint without sending channels sends its acknowledgement alone. */
  lemma AloneTooLong(e: Endpoint, rs: seq<Range>)
    requires WfEndpoint(e) && Alive(e) && e.sendOrder == [] && e.packetSequence == 0 && e.pendingAcks == rs != []
    requires Encodable(Ack(0, rs)) && AckSize(0, rs) > BUFFER_SIZE
    ensures GetPackets(e).endpoint.status == Disconnected(PacketSerialization) && GetPackets(e).payloads == []
  {
    hide Encodable, AckSize, Encode, WfEndpoint, AllPackets, SerializeAll, GetPackets;
    AckLength(Ack(0, rs));
    OnlyAck(e);
    OneTooLong(Ack(0, rs));
    TickOutcome(e);
  }

  lemma ManySingles()
    ensures var rs := Singles(2, 700); rs != [] && Encodable(Ack(0, rs)) && AckSize(0, rs) > BUFFER_SIZE
  {
    SinglesSize(0, 2, 700);
  }

  lemma ListenerIsWf(e: Endpoint, rs: seq<Range>)
    requires e == Listener(1000).(pendingAcks := rs, recvU := e.recvU) && Normal(rs) && Stats.WfStats(e.stats)
    requires e.recvU.Keys == {0} && UMemoryExact(e.recvU[0])
    ensures WfEndpoint(e)
  {
    hide Normal, Stats.WfStats, UMemoryExact, Stats.NewStats;
  }

  lemma EvensAre(n: nat)
    requires 2 * n < VARINT_LIMIT
    ensures Numbers(DescendingEvens(n)) && AddAll(DescendingEvens(n)) == Singles(2, n)
  {
    NoGlobalLimit(n, n);
    assert DescendingEvens(n)[..n] == DescendingEvens(n);
  }

  /**
   Packets 1400, 1398, ..., 2 arrive in this order; the next `get_packets_to_send` fails and
   disconnects, and nothing is sent.
   */
  lemma DescendingArrivalsDisconnect()
    ensures Numbers(DescendingEvens(700))
    ensures var e := Feed(DescendingEvens(700));
      && WfEndpoint(e) && Alive(e)
      && GetPackets(e).endpoint.status == Disconnected(PacketSerialization) && GetPackets(e).payloads == []
  {
    hide Numbers, DescendingEvens, Feed, Encodable, AckSize, Singles, GetPackets, AddAll, WfEndpoint, Stats.NewStats, Normal,
      Stats.WfStats, UMemoryExact;
    EvensAre(700);
    var e := Feed(DescendingEvens(700));
    FeedAcks(DescendingEvens(700));
    ManySingles();
    SinglesNormal(2, 700);
    ListenerIsWf(e, Singles(2, 700));
    AloneTooLong(e, Singles(2, 700));
  }
}
