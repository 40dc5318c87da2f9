/**
 Messages that were not completed within three seconds are not always given up: the scan of
 `discard_incomplete_old_slices` (renet/src/channel/unreliable.rs) stops at the first recent
 one. This shows it on an endpoint, from payloads to `update`.
 */
module StaleSlices {
  import opened Common
  import opened Slicing
  import opened Wire
  import opened Connection
  import S = Sizes
  import AckRanges
  import Stats
  import RR = ReliableReceive
  import U = Unreliable

  const SECOND: Time := 1_000_000_000

  /** The first slice of message `id`, which has `n` slices. */
  function FirstSlice(id: nat, n: nat): Slice {
    Slice(id, 0, n, seq(SLICE_SIZE, _ => 0))
  }

  /** The payload that carries it on unreliable channel 0, in packet `sequence`. */
  ghost function Carrier(sequence: nat, id: nat, n: nat): seq<byte>
    requires sequence < VARINT_LIMIT && id < VARINT_LIMIT && n < VARINT_LIMIT
  {
    Encode(UnreliableSlice(sequence, 0, FirstSlice(id, n)))
  }

  lemma CarrierDecodes(sequence: nat, id: nat, n: nat)
    requires sequence < VARINT_LIMIT && id < VARINT_LIMIT && 2 <= n <= MAX_NUM_SLICES
    ensures Decode(Carrier(sequence, id, n)) == Ok(UnreliableSlice(sequence, 0, FirstSlice(id, n)))
  {
    hide Encode, Decode;
    var p := UnreliableSlice(sequence, 0, FirstSlice(id, n));
    assert Encode(p) + [] == Encode(p);
    PacketRoundTrip(p, []);
  }

  lemma FirstSliceIsNotAll(n: nat)
    requires n >= 2
    ensures Process(Fresh(n), 0, FirstSlice(0, n).payload).result == Incomplete
  {
  }

  /** A first slice opens the message and starts its clock. */
  lemma SliceOpens(r: U.URecv, id: nat, n: nat, now: Time)
    requires n >= 2 && id !in r.slices && r.memoryUsage + n * SLICE_SIZE <= r.maxMemory
    ensures var o := U.UProcessSlice(r, FirstSlice(id, n), now);
      && o.error.None? && o.state.lastReceived == r.lastReceived[id := now] && o.state.slices.Keys == r.slices.Keys + {id}
      && o.state.memoryUsage == r.memoryUsage + n * SLICE_SIZE && o.state.maxMemory == r.maxMemory
      && (UMemoryExact(r) ==> UMemoryExact(o.state))
  {
    FirstSliceIsNotAll(n);
    assert FirstSlice(id, n).payload == FirstSlice(0, n).payload;
    var c := Process(Fresh(n), 0, FirstSlice(0, n).payload).constructor_;
    assert c.numSlices == n;
    hide Process, RR.SliceBytes;
    RR.SliceBytesInsert(r.slices, id, c);
    assert r.slices[id := Fresh(n)][id := c] == r.slices[id := c];
  }

  lemma RecentFirst(r: U.URecv, now: Time, id: nat)
    requires id in r.lastReceived && First(r.lastReceived.Keys) == id && !U.Stale(r.lastReceived, now, id)
    requires RR.SliceBytes(r.slices) <= r.memoryUsage
    ensures U.Discard(r, now) == r
  {
    hide RR.SliceBytes;
    assert U.Lost(r.lastReceived, now, r.lastReceived.Keys) == {};
    assert r.lastReceived - {} == r.lastReceived && r.slices - {} == r.slices;
  }

  // ---------------------------------------------------------------- the channel

  /** Slices of message 1 at 0 s and of message 0 at 2 s, and the scans of `update` at 2 s and at 4 s. */
  lemma ChannelKeepsStale(r: U.URecv, n0: nat, n1: nat)
    requires r == U.NewRecv(r.maxMemory) && n0 >= 2 && n1 >= 2 && (n0 + n1) * SLICE_SIZE <= r.maxMemory
    ensures var r1 := U.UProcessSlice(r, FirstSlice(1, n1), 0).state;
      && UMemoryExact(r1) && U.Discard(r1, 2 * SECOND) == r1
      && var r2 := U.UProcessSlice(r1, FirstSlice(0, n0), 2 * SECOND).state;
        && UMemoryExact(r2)
        && U.Stale(r2.lastReceived, 4 * SECOND, 1)
        && U.Discard(r2, 4 * SECOND) == r2 && 1 in r2.slices
        && r2.memoryUsage == (n0 + n1) * SLICE_SIZE && r2.maxMemory == r.maxMemory
    ensures U.UProcessSlice(r, FirstSlice(1, n1), 0).error.None?
    ensures U.UProcessSlice(U.UProcessSlice(r, FirstSlice(1, n1), 0).state, FirstSlice(0, n0), 2 * SECOND).error.None?
  {
    assert UMemoryExact(r);
    hide U.UProcessSlice, U.Discard, RR.SliceBytes;
    SliceOpens(r, 1, n1, 0);
    var r1 := U.UProcessSlice(r, FirstSlice(1, n1), 0).state;
    assert r1.lastReceived.Keys == {1};
    RecentFirst(r1, 2 * SECOND, 1);
    SliceOpens(r1, 0, n0, 2 * SECOND);
    var r2 := U.UProcessSlice(r1, FirstSlice(0, n0), 2 * SECOND).state;
    assert r2.lastReceived.Keys == {0, 1};
    RecentFirst(r2, 4 * SECOND, 0);
  }

  // ---------------------------------------------------------------- the endpoint

  lemma StillWf(e: Endpoint, rs: seq<AckRanges.Range>, r: U.URecv)
    requires WfEndpoint(e) && AckRanges.Normal(rs) && UMemoryExact(r)
    ensures WfEndpoint(e.(pendingAcks := rs, recvU := e.recvU[0 := r]))
  {
    hide AckRanges.Normal, Stats.WfStats, UMemoryExact, RR.MemoryExact, U.WfUSend, Exists;
  }

  lemma PendingNormal(e: Endpoint, sequence: nat)
    requires WfEndpoint(e)
    ensures AckRanges.Normal(AckRanges.AddAck(e.pendingAcks, sequence))
  {
    AckRanges.AddAckRefinesSet(e.pendingAcks, sequence);
  }

  /** What a slice does to an endpoint that has room for it. */
  lemma EndpointOpens(e: Endpoint, sequence: nat, id: nat, n: nat)
    requires WfEndpoint(e) && Stats.WfStats(e.stats) && Alive(e) && 0 in e.recvU
    requires sequence < VARINT_LIMIT && id < VARINT_LIMIT && 2 <= n <= MAX_NUM_SLICES
    requires U.UProcessSlice(e.recvU[0], FirstSlice(id, n), e.currentTime).error.None?
    requires UMemoryExact(U.UProcessSlice(e.recvU[0], FirstSlice(id, n), e.currentTime).state)
    ensures var e' := ProcessPacket(e, Carrier(sequence, id, n));
      && WfEndpoint(e') && Alive(e') && e'.currentTime == e.currentTime
      && e'.recvU == e.recvU[0 := U.UProcessSlice(e.recvU[0], FirstSlice(id, n), e.currentTime).state]
  {
    hide WfEndpoint, Carrier, Decode, AckRanges.AddAck, AckRanges.Normal, Stats.WfStats, U.UProcessSlice, UMemoryExact;
    CarrierDecodes(sequence, id, n);
    PendingNormal(e, sequence);
    StillWf(e, AckRanges.AddAck(e.pendingAcks, sequence), U.UProcessSlice(e.recvU[0], FirstSlice(id, n), e.currentTime).state);
  }

  /** Time passes and the scan of the channel gives nothing up. */
  lemma EndpointWaits(e: Endpoint, t: Time)
    requires WfEndpoint(e) && e.recvU.Keys == {0} && UMemoryExact(e.recvU[0])
    requires U.Discard(e.recvU[0], e.currentTime + t) == e.recvU[0]
    ensures Update(e, t).recvU == e.recvU && Update(e, t).currentTime == e.currentTime + t && Update(e, t).status == e.status
  {
    hide Expire, Stats.UpdateStats, U.Discard;
  }

  lemma WaitsWf(e: Endpoint, t: Time)
    requires WfEndpoint(e) && Update(e, t).recvU == e.recvU
    ensures WfEndpoint(Update(e, t))
  {
    hide AckRanges.Normal, UMemoryExact, RR.MemoryExact, U.WfUSend, Exists, DiscardAll, FirstFresh;
  }

  lemma ListenerWf(maxMemory: nat)
    ensures WfEndpoint(S.Listener(maxMemory))
  {
  }

  /**
   Message 1 gets its last slice at 0 s and message 0 at 2 s. The `update` at 4 s keeps
   message 1, though it is four seconds old, and the memory reserved for it.
   */
  lemma UpdateKeepsStale(n0: nat, n1: nat) returns (e1: Endpoint, e2: Endpoint, e3: Endpoint, e4: Endpoint)
    requires 2 <= n0 <= MAX_NUM_SLICES && 2 <= n1 <= MAX_NUM_SLICES
    ensures Stats.WfStats(Stats.NewStats()) && e1 == ProcessPacket(S.Listener((n0 + n1) * SLICE_SIZE), Carrier(2, 1, n1))
    ensures WfEndpoint(e1) && e2 == Update(e1, 2 * SECOND)
    ensures Stats.WfStats(e2.stats) && e3 == ProcessPacket(e2, Carrier(0, 0, n0))
    ensures WfEndpoint(e3) && e4 == Update(e3, 2 * SECOND)
    ensures Alive(e4) && e4.currentTime == 4 * SECOND && 0 in e3.recvU && 0 in e4.recvU
    ensures U.Stale(e3.recvU[0].lastReceived, e4.currentTime, 1)
    ensures 1 in e4.recvU[0].slices && e4.recvU[0].memoryUsage == e4.recvU[0].maxMemory
  {
    hide WfEndpoint, Carrier, ProcessPacket, Update, U.UProcessSlice, U.Discard, Stats.WfStats, UMemoryExact;
    var e0 := S.Listener((n0 + n1) * SLICE_SIZE);
    ListenerWf((n0 + n1) * SLICE_SIZE);
    ChannelKeepsStale(e0.recvU[0], n0, n1);
    WfStatsOf(e0);
    EndpointOpens(e0, 2, 1, n1);
    e1 := ProcessPacket(e0, Carrier(2, 1, n1));
    EndpointWaits(e1, 2 * SECOND);
    WaitsWf(e1, 2 * SECOND);
    e2 := Update(e1, 2 * SECOND);
    WfStatsOf(e2);
    EndpointOpens(e2, 0, 0, n0);
    e3 := ProcessPacket(e2, Carrier(0, 0, n0));
    EndpointWaits(e3, 2 * SECOND);
    e4 := Update(e3, 2 * SECOND);
  }
}
