/**
 Packet generation of a reliable channel (`SendChannelReliable::get_packets_to_send` in
 renet/src/channel/reliable.rs): which messages and slices one tick emits.
 */
module SendScheduling {
  import opened Common
  import opened Slicing
  import opened Wire
  import opened ReliableSend

  /** The local variables of one call. */
  datatype Batch = Batch(
    packets: seq<Packet>,
    sequence: nat,
    available: nat,
    small: seq<Entry>,
    smallBytes: nat)

  datatype Visit = Visit(batch: Batch, message: Unacked)

  predicate Due(lastSent: Option<Time>, now: Time, resendTime: Time) {
    lastSent.None? || now - lastSent.value >= resendTime
  }

  /** Emits the collected small messages, even if there are none. */
  function Flush(b: Batch, channelId: byte): Batch {
    b.(packets := b.packets + [SmallReliable(b.sequence, channelId, b.small)],
       sequence := b.sequence + 1,
       small := [],
       smallBytes := 0)
  }

  function SerializedSize(e: Entry): nat {
    |e.payload| + VarintLen(|e.payload|) + VarintLen(e.id)
  }

  function Collect(b: Batch, channelId: byte, e: Entry): Batch
    requires |e.payload| <= b.available
  {
    var size := SerializedSize(e);
    var f := if b.smallBytes + size > SLICE_SIZE then Flush(b, channelId) else b;
    f.(available := b.available - |e.payload|, small := f.small + [e], smallBytes := f.smallBytes + size)
  }

  function VisitSmall(b: Batch, s: SendState, now: Time, id: nat, u: Unacked): Visit
    requires u.Small?
  {
    if b.available < |u.message| || !Due(u.lastSent, now, s.resendTime) then Visit(b, u)
    else Visit(Collect(b, s.channelId, Entry(id, u.message)), u.(lastSent := Some(now)))
  }

  function EmitSlice(b: Batch, channelId: byte, id: nat, u: Unacked, i: nat): Batch
    requires WfUnacked(u) && u.Sliced? && i < u.numSlices && SLICE_SIZE <= b.available
  {
    var payload := SliceOf(u.message, i);
    b.(packets := b.packets + [ReliableSlice(b.sequence, channelId, Slice(id, i, u.numSlices, payload))],
       sequence := b.sequence + 1,
       available := b.available - |payload|)
  }

  /** The slice index looked at in round `j` of the loop over the slices of `u`. */
  function Rotated(u: Unacked, j: nat): (i: nat)
    requires u.Sliced? && u.numSlices > 0
    ensures i < u.numSlices
  {
    (u.nextSlice + j) % u.numSlices
  }

  /**
   The first `j` rounds of the loop over the slices of `u`. Leaving the loop when the
   budget runs out is the same as skipping its remaining rounds.
   */
  function SliceScan(b: Batch, s: SendState, now: Time, id: nat, u: Unacked, j: nat): (v: Visit)
    requires WfUnacked(u) && u.Sliced? && j <= u.numSlices
    ensures WfUnacked(v.message) && v.message.Sliced?
    ensures v.message == u.(nextSlice := v.message.nextSlice, lastSents := v.message.lastSents)
  {
    if j == 0 then Visit(b, u)
    else
      var v := SliceScan(b, s, now, id, u, j - 1);
      var i := Rotated(u, j - 1);
      if v.batch.available < SLICE_SIZE || u.acked[i] || !Due(v.message.lastSents[i], now, s.resendTime) then v
      else Visit(EmitSlice(v.batch, s.channelId, id, u, i),
                 v.message.(lastSents := v.message.lastSents[i := Some(now)], nextSlice := i + 1))
  }

  /** The same message with the same acknowledgements; only timers and rotation may differ. */
  ghost predicate SameMessage(u: Unacked, v: Unacked) {
    && v.message == u.message
    && (v.Small? <==> u.Small?)
    && (u.Sliced? ==> v.acked == u.acked && v.numSlices == u.numSlices && v.numAcked == u.numAcked)
  }

  /** One held message is considered for sending. */
  function VisitMessage(b: Batch, s: SendState, now: Time, id: nat, u: Unacked): (v: Visit)
    requires WfUnacked(u)
    ensures WfUnacked(v.message) && SameMessage(u, v.message)
  {
    if u.Small? then VisitSmall(b, s, now, id, u) else SliceScan(b, s, now, id, u, u.numSlices)
  }

  datatype Scanned = Scanned(batch: Batch, unacked: map<nat, Unacked>)

  ghost predicate AllWf(unacked: map<nat, Unacked>) {
    forall id :: id in unacked ==> WfUnacked(unacked[id])
  }

  /** The loop over the held messages in id order, for the ids below `k`. */
  function Scan(s: SendState, sequence: nat, available: nat, now: Time, k: nat): (r: Scanned)
    requires AllWf(s.unacked)
    ensures r.unacked.Keys == s.unacked.Keys
  {
    if k == 0 then Scanned(Batch([], sequence, available, [], 0), s.unacked)
    else
      var r := Scan(s, sequence, available, now, k - 1);
      if k - 1 !in s.unacked then r
      else
        var v := VisitMessage(r.batch, s, now, k - 1, s.unacked[k - 1]);
        Scanned(v.batch, r.unacked[k - 1 := v.message])
  }

  datatype Tick = Tick(state: SendState, packets: seq<Packet>, sequence: nat, available: nat)

  /** `get_packets_to_send`. */
  function GetPackets(s: SendState, sequence: nat, available: nat, now: Time): Tick
    requires AllWf(s.unacked)
  {
    var r := Scan(s, sequence, available, now, s.nextId);
    var b := if r.batch.small == [] then r.batch else Flush(r.batch, s.channelId);
    Tick(s.(unacked := r.unacked), b.packets, b.sequence, b.available)
  }

  // ---------------------------------------------------------------- what stays unchanged

  ghost predicate SameMessages(a: map<nat, Unacked>, b: map<nat, Unacked>) {
    a.Keys == b.Keys && forall id :: id in a ==> SameMessage(a[id], b[id])
  }

  lemma {:induction false} ScanKeepsMessages(s: SendState, sequence: nat, available: nat, now: Time, k: nat)
    requires AllWf(s.unacked)
    ensures var r := Scan(s, sequence, available, now, k); SameMessages(s.unacked, r.unacked) && AllWf(r.unacked)
  {
    hide WfUnacked, VisitMessage;
    if k > 0 {
      ScanKeepsMessages(s, sequence, available, now, k - 1);
    }
  }

  /** A tick changes neither the held messages, nor their acknowledgements, nor the memory in use. */
  lemma GetPacketsWf(s: SendState, sequence: nat, available: nat, now: Time)
    requires WfSend(s)
    ensures var t := GetPackets(s, sequence, available, now);
      && WfSend(t.state)
      && SameMessages(s.unacked, t.state.unacked)
      && t.state == s.(unacked := t.state.unacked)
  {
    ScanKeepsMessages(s, sequence, available, now, s.nextId);
    HeldBytesSame(s.unacked, GetPackets(s, sequence, available, now).state.unacked, s.nextId);
  }

  // ---------------------------------------------------------------- what is emitted

  /** `e` carries a small message that is still held, unchanged. */
  ghost predicate HeldEntry(unacked: map<nat, Unacked>, e: Entry) {
    e.id in unacked && unacked[e.id].Small? && e.payload == unacked[e.id].message
  }

  /** `sl` is a slice, still unacknowledged, of a held message. */
  ghost predicate HeldSlice(unacked: map<nat, Unacked>, sl: Slice) {
    && sl.messageId in unacked
    && var u := unacked[sl.messageId];
      && u.Sliced? && WfUnacked(u)
      && sl.numSlices == u.numSlices && sl.sliceIndex < u.numSlices
      && !u.acked[sl.sliceIndex]
      && sl.payload == SliceOf(u.message, sl.sliceIndex)
  }

  function EntriesSize(es: seq<Entry>): nat {
    if es == [] then 0 else EntriesSize(es[..|es| - 1]) + SerializedSize(es[|es| - 1])
  }

  /** A batch of small messages is at most one message longer than a slice. */
  const MAX_BATCH: nat := 1210

  ghost predicate HeldEntries(unacked: map<nat, Unacked>, es: seq<Entry>) {
    (forall e :: e in es ==> HeldEntry(unacked, e)) && EntriesSize(es) <= MAX_BATCH
  }

  /** Everything in packet `p` is held by the channel, and `p` is not too large. */
  ghost predicate FromChannel(channelId: byte, unacked: map<nat, Unacked>, p: Packet) {
    match p
    case SmallReliable(_, c, es) => c == channelId && HeldEntries(unacked, es)
    case ReliableSlice(_, c, sl) => c == channelId && HeldSlice(unacked, sl)
    case _ => false
  }

  /** What holds of the local variables throughout the call. */
  ghost predicate Sound(s: SendState, first: nat, available: nat, b: Batch) {
    && Consecutive(b.packets, first) && b.sequence == first + |b.packets|
    && (forall p :: p in b.packets ==> FromChannel(s.channelId, s.unacked, p))
    && HeldEntries(s.unacked, b.small)
    && b.smallBytes == EntriesSize(b.small)
    && b.available + TotalPayload(b.packets) + EntriesBytes(b.small) == available
  }

  lemma AppendEntry(es: seq<Entry>, e: Entry)
    ensures EntriesSize(es + [e]) == EntriesSize(es) + SerializedSize(e)
    ensures EntriesBytes(es + [e]) == EntriesBytes(es) + |e.payload|
  {
    assert (es + [e])[..|es|] == es;
  }

  lemma FlushSound(s: SendState, first: nat, available: nat, b: Batch)
    requires Sound(s, first, available, b)
    ensures Sound(s, first, available, Flush(b, s.channelId))
  {
    AppendPacket(b.packets, SmallReliable(b.sequence, s.channelId, b.small));
  }

  lemma SerializedSizeBound(e: Entry)
    requires |e.payload| <= SLICE_SIZE
    ensures |e.payload| + 2 <= SerializedSize(e) <= MAX_BATCH
  {
  }

  /** Adding one held message that fits. */
  lemma AddEntrySound(s: SendState, first: nat, available: nat, b: Batch, e: Entry)
    requires Sound(s, first, available, b) && HeldEntry(s.unacked, e) && |e.payload| <= b.available
    requires b.smallBytes + SerializedSize(e) <= MAX_BATCH
    ensures Sound(s, first, available,
                  b.(available := b.available - |e.payload|,
                     small := b.small + [e],
                     smallBytes := b.smallBytes + SerializedSize(e)))
  {
    hide HeldEntry, SerializedSize, FromChannel;
    AppendEntry(b.small, e);
  }

  lemma CollectSound(s: SendState, first: nat, available: nat, b: Batch, e: Entry)
    requires Sound(s, first, available, b) && HeldEntry(s.unacked, e) && |e.payload| <= b.available
    requires |e.payload| <= SLICE_SIZE
    ensures Sound(s, first, available, Collect(b, s.channelId, e))
  {
    hide Sound, SerializedSize;
    SerializedSizeBound(e);
    if b.smallBytes + SerializedSize(e) > SLICE_SIZE {
      FlushSound(s, first, available, b);
      AddEntrySound(s, first, available, Flush(b, s.channelId), e);
    } else {
      AddEntrySound(s, first, available, b, e);
    }
  }

  lemma EmitSound(s: SendState, first: nat, available: nat, b: Batch, id: nat, i: nat)
    requires Sound(s, first, available, b) && SLICE_SIZE <= b.available
    requires id in s.unacked && WfUnacked(s.unacked[id]) && s.unacked[id].Sliced?
    requires i < s.unacked[id].numSlices && !s.unacked[id].acked[i]
    ensures Sound(s, first, available, EmitSlice(b, s.channelId, id, s.unacked[id], i))
  {
    hide HeldEntries;
    var u := s.unacked[id];
    AppendPacket(b.packets,
                 ReliableSlice(b.sequence, s.channelId, Slice(id, i, u.numSlices, SliceOf(u.message, i))));
  }

  lemma {:induction false} SliceScanSound(s: SendState, first: nat, available: nat, b: Batch, now: Time, id: nat, j: nat)
    requires id in s.unacked && WfUnacked(s.unacked[id]) && s.unacked[id].Sliced? && j <= s.unacked[id].numSlices
    requires Sound(s, first, available, b)
    ensures Sound(s, first, available, SliceScan(b, s, now, id, s.unacked[id], j).batch)
  {
    hide Sound, EmitSlice;
    if j > 0 {
      SliceScanSound(s, first, available, b, now, id, j - 1);
      var v := SliceScan(b, s, now, id, s.unacked[id], j - 1);
      var i := Rotated(s.unacked[id], j - 1);
      if SLICE_SIZE <= v.batch.available && !s.unacked[id].acked[i] {
        EmitSound(s, first, available, v.batch, id, i);
      }
    }
  }

  lemma {:induction false} ScanSound(s: SendState, first: nat, available: nat, now: Time, k: nat)
    requires AllWf(s.unacked)
    ensures Sound(s, first, available, Scan(s, first, available, now, k).batch)
  {
    if k > 0 {
      ScanSound(s, first, available, now, k - 1);
      hide Sound;
      var b := Scan(s, first, available, now, k - 1).batch;
      if k - 1 in s.unacked {
        var u := s.unacked[k - 1];
        if u.Sliced? {
          SliceScanSound(s, first, available, b, now, k - 1, u.numSlices);
        } else if |u.message| <= b.available {
          CollectSound(s, first, available, b, Entry(k - 1, u.message));
        }
      }
    }
  }

  /**
   One tick: packets carry consecutive sequences, contain only held data, and the budget
   drops by exactly the payload bytes they carry.
   */
  lemma TickIsSound(s: SendState, first: nat, available: nat, now: Time)
    requires AllWf(s.unacked)
    ensures var t := GetPackets(s, first, available, now);
      && Consecutive(t.packets, first) && t.sequence == first + |t.packets|
      && (forall p :: p in t.packets ==> FromChannel(s.channelId, s.unacked, p))
      && t.available + TotalPayload(t.packets) == available
  {
    ScanSound(s, first, available, now, s.nextId);
    FlushSound(s, first, available, Scan(s, first, available, now, s.nextId).batch);
  }

  // ---------------------------------------------------------------- rotation

  /** The round in which the rotated loop over the slices of `u` looks at slice `i`. */
  function RoundOf(u: Unacked, i: nat): nat
    requires u.Sliced? && u.nextSlice <= u.numSlices && i < u.numSlices
  {
    if u.nextSlice <= i then i - u.nextSlice else i + u.numSlices - u.nextSlice
  }

  lemma ModOnce(x: nat, n: nat)
    requires 0 < n && x < 2 * n
    ensures x % n == if x < n then x else x - n
  {
    if n <= x {
      assert x == n + (x - n);
      assert (x - n) / n == 0;
    }
  }

  /** The rotated loop looks at every slice index exactly once, wherever it starts. */
  lemma RotationIsBijection(u: Unacked, i: nat, j: nat)
    requires u.Sliced? && u.nextSlice <= u.numSlices && i < u.numSlices && j < u.numSlices
    ensures Rotated(u, j) < u.numSlices && RoundOf(u, Rotated(u, j)) == j
    ensures RoundOf(u, i) < u.numSlices && Rotated(u, RoundOf(u, i)) == i
  {
    ModOnce(u.nextSlice + j, u.numSlices);
    ModOnce(u.nextSlice + RoundOf(u, i), u.numSlices);
  }

  // ---------------------------------------------------------------- emitted exactly once

  datatype Item = SmallItem(id: nat) | SliceItem(id: nat, index: nat)

  ghost function EntryItems(es: seq<Entry>): multiset<Item> {
    if es == [] then multiset{} else EntryItems(es[..|es| - 1]) + multiset{SmallItem(es[|es| - 1].id)}
  }

  ghost function PacketItems(p: Packet): multiset<Item> {
    match p
    case SmallReliable(_, _, es) => EntryItems(es)
    case ReliableSlice(_, _, sl) => multiset{SliceItem(sl.messageId, sl.sliceIndex)}
    case _ => multiset{}
  }

  /** The small messages and slices that a list of packets carries. */
  ghost function Items(ps: seq<Packet>): multiset<Item> {
    if ps == [] then multiset{} else Items(ps[..|ps| - 1]) + PacketItems(ps[|ps| - 1])
  }

  ghost function BatchItems(b: Batch): multiset<Item> {
    Items(b.packets) + EntryItems(b.small)
  }

  lemma FlushItems(b: Batch, channelId: byte)
    ensures BatchItems(Flush(b, channelId)) == BatchItems(b)
  {
    assert Flush(b, channelId).packets[..|b.packets|] == b.packets;
  }

  lemma CollectItems(b: Batch, channelId: byte, e: Entry)
    requires |e.payload| <= b.available
    ensures BatchItems(Collect(b, channelId, e)) == BatchItems(b) + multiset{SmallItem(e.id)}
  {
    FlushItems(b, channelId);
    var f := if b.smallBytes + SerializedSize(e) > SLICE_SIZE then Flush(b, channelId) else b;
    assert (f.small + [e])[..|f.small|] == f.small;
  }

  lemma EmitItems(b: Batch, channelId: byte, id: nat, u: Unacked, i: nat)
    requires WfUnacked(u) && u.Sliced? && i < u.numSlices && SLICE_SIZE <= b.available
    ensures BatchItems(EmitSlice(b, channelId, id, u, i)) == BatchItems(b) + multiset{SliceItem(id, i)}
  {
    assert EmitSlice(b, channelId, id, u, i).packets[..|b.packets|] == b.packets;
  }

  /** Bytes of the slices looked at in the first `j` rounds. */
  ghost function RoundBytes(u: Unacked, j: nat): int
    requires WfUnacked(u) && u.Sliced? && j <= u.numSlices
  {
    SLICE_SIZE * j - if RoundOf(u, u.numSlices - 1) < j then SLICE_SIZE * u.numSlices - |u.message| else 0
  }

  lemma {:induction false} SliceScanBudget(b: Batch, s: SendState, now: Time, id: nat, u: Unacked, j: nat)
    requires WfUnacked(u) && u.Sliced? && j <= u.numSlices
    ensures b.available - RoundBytes(u, j) <= SliceScan(b, s, now, id, u, j).batch.available <= b.available
  {
    hide Rotated, RoundOf, EmitSlice;
    if j > 0 {
      SliceScanBudget(b, s, now, id, u, j - 1);
      RotationIsBijection(u, u.numSlices - 1, j - 1);
      var v := SliceScan(b, s, now, id, u, j - 1);
      if SLICE_SIZE <= v.batch.available {
        EmitCost(v.batch, s.channelId, id, u, Rotated(u, j - 1));
      }
    }
  }

  lemma EmitCost(b: Batch, channelId: byte, id: nat, u: Unacked, i: nat)
    requires WfUnacked(u) && u.Sliced? && i < u.numSlices && SLICE_SIZE <= b.available
    ensures var spent := b.available - EmitSlice(b, channelId, id, u, i).available;
      0 <= spent <= SLICE_SIZE && (i == u.numSlices - 1 ==> spent == |u.message| - SLICE_SIZE * (u.numSlices - 1))
  {
  }

  lemma {:induction false} SliceScanTimers(b: Batch, s: SendState, now: Time, id: nat, u: Unacked, j: nat, i: nat)
    requires WfUnacked(u) && u.Sliced? && j <= u.numSlices && i < u.numSlices && j <= RoundOf(u, i)
    ensures SliceScan(b, s, now, id, u, j).message.lastSents[i] == u.lastSents[i]
  {
    hide EmitSlice;
    if j > 0 {
      SliceScanTimers(b, s, now, id, u, j - 1, i);
      RotationIsBijection(u, i, j - 1);
    }
  }

  /** `it` is a slice of `u` that is due, unacknowledged and looked at in the first `j` rounds. */
  ghost predicate Wanted(s: SendState, now: Time, id: nat, u: Unacked, j: nat, it: Item)
    requires WfUnacked(u) && u.Sliced?
  {
    && it.SliceItem? && it.id == id && it.index < u.numSlices
    && RoundOf(u, it.index) < j && !u.acked[it.index] && Due(u.lastSents[it.index], now, s.resendTime)
  }

  lemma RoundBytesBound(u: Unacked, j: nat)
    requires WfUnacked(u) && u.Sliced? && j <= u.numSlices
    ensures RoundBytes(u, j) <= |u.message|
  {
    RotationIsBijection(u, u.numSlices - 1, 0);
  }

  /** The slice looked at in round `j` is emitted. */
  ghost predicate EmittedInRound(b: Batch, s: SendState, now: Time, id: nat, u: Unacked, j: nat)
    requires WfUnacked(u) && u.Sliced? && j < u.numSlices
  {
    var i := Rotated(u, j);
    && SLICE_SIZE <= SliceScan(b, s, now, id, u, j).batch.available
    && !u.acked[i] && Due(u.lastSents[i], now, s.resendTime)
  }

  /** How often `it` is in the batch after `j` rounds. */
  ghost function CountAfter(b: Batch, s: SendState, now: Time, id: nat, u: Unacked, j: nat, it: Item): nat
    requires WfUnacked(u) && u.Sliced? && j <= u.numSlices
  {
    BatchItems(SliceScan(b, s, now, id, u, j).batch)[it]
  }

  lemma RoundItems(b: Batch, s: SendState, now: Time, id: nat, u: Unacked, j: nat, it: Item)
    requires WfUnacked(u) && u.Sliced? && j < u.numSlices
    ensures CountAfter(b, s, now, id, u, j + 1, it) ==
            CountAfter(b, s, now, id, u, j, it) +
            if EmittedInRound(b, s, now, id, u, j) && it == SliceItem(id, Rotated(u, j)) then 1 else 0
  {
    hide BatchItems, EmitSlice, Rotated;
    var v := SliceScan(b, s, now, id, u, j);
    var i := Rotated(u, j);
    RotationIsBijection(u, i, j);
    SliceScanTimers(b, s, now, id, u, j, i);
    if SLICE_SIZE <= v.batch.available {
      EmitItems(v.batch, s.channelId, id, u, i);
    }
  }

  /** A slice is wanted within `j + 1` rounds if it was before or is looked at in round `j`. */
  lemma WantedStep(s: SendState, now: Time, id: nat, u: Unacked, j: nat, it: Item)
    requires WfUnacked(u) && u.Sliced? && j < u.numSlices
    ensures Wanted(s, now, id, u, j + 1, it) <==>
      || Wanted(s, now, id, u, j, it)
      || (it == SliceItem(id, Rotated(u, j)) && !u.acked[Rotated(u, j)] &&
          Due(u.lastSents[Rotated(u, j)], now, s.resendTime))
    ensures it == SliceItem(id, Rotated(u, j)) ==> !Wanted(s, now, id, u, j, it)
  {
    hide Rotated;
    RotationIsBijection(u, Rotated(u, j), j);
    if it.SliceItem? && it.id == id && it.index < u.numSlices {
      RotationIsBijection(u, it.index, j);
    }
  }

  /**
   The slice loop adds each wanted slice at most once and nothing else, and with enough
   budget it adds every one of them.
   */
  lemma {:induction false} SliceScanItems(
    b: Batch, s: SendState, now: Time, id: nat, u: Unacked, j: nat, it: Item)
    requires WfUnacked(u) && u.Sliced? && j <= u.numSlices
    ensures
      var before := CountAfter(b, s, now, id, u, 0, it);
      var after := CountAfter(b, s, now, id, u, j, it);
      var wanted := if Wanted(s, now, id, u, j, it) then 1 else 0;
      && before <= after <= before + wanted
      && (b.available >= |u.message| + SLICE_SIZE ==> after == before + wanted)
  {
    hide CountAfter, Wanted, Rotated, RoundBytes, WfUnacked, RoundOf, Due;
    if j == 0 {
      assert !Wanted(s, now, id, u, 0, it) by { NothingWantedYet(s, now, id, u, it); }
    } else {
      assert j - 1 < u.numSlices;
      SliceScanItems(b, s, now, id, u, j - 1, it);
      RoundItems(b, s, now, id, u, j - 1, it);
      WantedStep(s, now, id, u, j - 1, it);
      SliceScanBudget(b, s, now, id, u, j - 1);
      RoundBytesBound(u, j - 1);
    }
  }

  lemma NothingWantedYet(s: SendState, now: Time, id: nat, u: Unacked, it: Item)
    requires WfUnacked(u) && u.Sliced?
    ensures !Wanted(s, now, id, u, 0, it)
  {
  }

  /** The item is one the channel should send now: held, unacknowledged and due. */
  ghost predicate Outstanding(s: SendState, now: Time, it: Item)
    requires AllWf(s.unacked)
  {
    && it.id in s.unacked
    && match s.unacked[it.id]
       case Small(_, lastSent) => it.SmallItem? && Due(lastSent, now, s.resendTime)
       case Sliced(_, n, _, _, acked, lastSents) =>
         it.SliceItem? && it.index < n && !acked[it.index] && Due(lastSents[it.index], now, s.resendTime)
  }

  lemma VisitMessageItems(b: Batch, s: SendState, now: Time, id: nat, it: Item)
    requires AllWf(s.unacked) && id in s.unacked
    ensures
      var u := s.unacked[id];
      var v := VisitMessage(b, s, now, id, u);
      var before := BatchItems(b)[it];
      var after := BatchItems(v.batch)[it];
      var wanted := if it.id == id && Outstanding(s, now, it) then 1 else 0;
      && before <= after <= before + wanted
      && (b.available >= |u.message| + SLICE_SIZE ==> after == before + wanted)
      && b.available - |u.message| <= v.batch.available <= b.available
  {
    hide BatchItems;
    var u := s.unacked[id];
    if u.Sliced? {
      SliceScanItems(b, s, now, id, u, u.numSlices, it);
      SliceScanBudget(b, s, now, id, u, u.numSlices);
      RoundBytesBound(u, u.numSlices);
      if it.SliceItem? && it.index < u.numSlices {
        RotationIsBijection(u, it.index, 0);
      }
    } else if |u.message| <= b.available {
      CollectItems(b, s.channelId, Entry(id, u.message));
    }
  }

  lemma NothingBatched(first: nat, available: nat)
    ensures BatchItems(Batch([], first, available, [], 0)) == multiset{}
  {
  }

  lemma {:induction false} ScanItems(s: SendState, first: nat, available: nat, now: Time, k: nat, it: Item)
    requires AllWf(s.unacked)
    ensures
      var b := Scan(s, first, available, now, k).batch;
      var wanted := if it.id < k && Outstanding(s, now, it) then 1 else 0;
      && BatchItems(b)[it] <= wanted
      && available - HeldBytes(s.unacked, k) <= b.available
      && (available >= HeldBytes(s.unacked, k) + SLICE_SIZE ==> BatchItems(b)[it] == wanted)
  {
    hide BatchItems, VisitMessage, WfUnacked, AllWf, Due;
    if k == 0 {
      NothingBatched(first, available);
    } else {
      ScanItems(s, first, available, now, k - 1, it);
      if k - 1 in s.unacked {
        VisitMessageItems(Scan(s, first, available, now, k - 1).batch, s, now, k - 1, it);
      }
    }
  }

  /**
   One tick emits nothing but outstanding items, each at most once; with a budget of the
   memory in use plus one slice it emits every outstanding item exactly once.
   */
  lemma TickEmitsOutstandingOnce(s: SendState, first: nat, available: nat, now: Time, it: Item)
    requires WfSend(s)
    ensures
      var emitted := Items(GetPackets(s, first, available, now).packets)[it];
      && emitted <= (if Outstanding(s, now, it) then 1 else 0)
      && (available >= s.memoryUsage + SLICE_SIZE ==> emitted == if Outstanding(s, now, it) then 1 else 0)
  {
    ScanItems(s, first, available, now, s.nextId, it);
    var b := Scan(s, first, available, now, s.nextId).batch;
    FlushItems(b, s.channelId);
  }
}
