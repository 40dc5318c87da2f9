/**
 Unreliable channels (renet/src/channel/unreliable.rs) as functions of their state.
 */
module Unreliable {
  import opened Common
  import opened Slicing
  import opened Wire
  import opened ReliableReceive

  // ---------------------------------------------------------------- sending

  datatype USend = USend(channelId: byte, queue: seq<Message>, slicedId: nat, maxMemory: nat, memoryUsage: nat)

  function NewSend(channelId: byte, maxMemory: nat): USend {
    USend(channelId, [], 0, maxMemory, 0)
  }

  /** `send_message` of the sending half: a message that does not fit is dropped. */
  function Enqueue(s: USend, m: Message): USend {
    if s.memoryUsage + |m| > s.maxMemory then s
    else s.(memoryUsage := s.memoryUsage + |m|, queue := s.queue + [m])
  }

  ghost predicate WfUSend(s: USend) {
    s.memoryUsage == QueueBytes(s.queue) <= s.maxMemory
  }

  /** The local variables of one call of `get_packets_to_send`; `sliced` lists the messages cut up so far. */
  datatype UBatch = UBatch(
    packets: seq<Packet>,
    sequence: nat,
    available: nat,
    small: seq<Message>,
    smallBytes: nat,
    sliced: seq<Message>)

  function UFlush(b: UBatch, channelId: byte): UBatch {
    b.(packets := b.packets + [SmallUnreliable(b.sequence, channelId, b.small)],
       sequence := b.sequence + 1,
       small := [],
       smallBytes := 0)
  }

  function MessageSize(m: Message): nat {
    |m| + VarintLen(|m|)
  }

  function UCollect(b: UBatch, channelId: byte, m: Message): UBatch {
    var f := if b.smallBytes + MessageSize(m) > SLICE_SIZE then UFlush(b, channelId) else b;
    f.(small := f.small + [m], smallBytes := f.smallBytes + MessageSize(m))
  }

  /** Emits slices `0 .. j` of message number `id`. */
  function USlices(b: UBatch, channelId: byte, id: nat, m: Message, j: nat): UBatch
    requires j <= NumSlices(|m|)
  {
    if j == 0 then b
    else
      var c := USlices(b, channelId, id, m, j - 1);
      var sl := Slice(id, j - 1, NumSlices(|m|), SliceOf(m, j - 1));
      c.(packets := c.packets + [UnreliableSlice(c.sequence, channelId, sl)], sequence := c.sequence + 1)
  }

  /** One message leaves the queue: it is dropped, cut up or collected. */
  function UVisit(b: UBatch, s: USend, m: Message): UBatch {
    if b.available < |m| then b
    else
      var paid := b.(available := b.available - |m|);
      if |m| > SLICE_SIZE then
        var cut := USlices(paid, s.channelId, s.slicedId + |b.sliced|, m, NumSlices(|m|));
        cut.(sliced := b.sliced + [m])
      else UCollect(paid, s.channelId, m)
  }

  function UScan(s: USend, sequence: nat, available: nat, k: nat): UBatch
    requires k <= |s.queue|
  {
    if k == 0 then UBatch([], sequence, available, [], 0, [])
    else UVisit(UScan(s, sequence, available, k - 1), s, s.queue[k - 1])
  }

  datatype UTick = UTick(state: USend, packets: seq<Packet>, sequence: nat, available: nat, sliced: seq<Message>)

  /** `get_packets_to_send`: the queue is always emptied. */
  function UGetPackets(s: USend, sequence: nat, available: nat): UTick
    requires QueueBytes(s.queue) <= s.memoryUsage
  {
    var r := UScan(s, sequence, available, |s.queue|);
    var b := if r.small == [] then r else UFlush(r, s.channelId);
    UTick(s.(queue := [], memoryUsage := s.memoryUsage - QueueBytes(s.queue), slicedId := s.slicedId + |b.sliced|),
          b.packets, b.sequence, b.available, b.sliced)
  }

  function MessagesSize(ms: seq<Message>): nat {
    if ms == [] then 0 else MessagesSize(ms[..|ms| - 1]) + MessageSize(ms[|ms| - 1])
  }

  const MAX_UBATCH: nat := 1202

  ghost predicate QueuedMessages(s: USend, ms: seq<Message>) {
    Within(ms, s.queue) && MessagesSize(ms) <= MAX_UBATCH
  }

  /** Packet `p` carries queued messages, or a slice of one that was cut up in this call. */
  ghost predicate FromQueue(s: USend, sliced: seq<Message>, p: Packet) {
    match p
    case SmallUnreliable(_, c, ms) => c == s.channelId && QueuedMessages(s, ms)
    case UnreliableSlice(_, c, sl) =>
      && c == s.channelId && s.slicedId <= sl.messageId < s.slicedId + |sliced|
      && var m := sliced[sl.messageId - s.slicedId];
        && |m| > SLICE_SIZE
        && sl.numSlices == NumSlices(|m|) && sl.sliceIndex < sl.numSlices
        && sl.payload == SliceOf(m, sl.sliceIndex)
    case _ => false
  }

  ghost predicate AllFromQueue(s: USend, sliced: seq<Message>, ps: seq<Packet>) {
    forall p :: p in ps ==> FromQueue(s, sliced, p)
  }

  ghost predicate USound(s: USend, first: nat, available: nat, b: UBatch) {
    && Consecutive(b.packets, first) && b.sequence == first + |b.packets|
    && AllFromQueue(s, b.sliced, b.packets)
    && QueuedMessages(s, b.small) && b.smallBytes == MessagesSize(b.small)
    && Within(b.sliced, s.queue)
    && b.available + TotalPayload(b.packets) + QueueBytes(b.small) == available
  }

  lemma MessagesSizeAppend(ms: seq<Message>, m: Message)
    ensures MessagesSize(ms + [m]) == MessagesSize(ms) + MessageSize(m)
  {
    assert (ms + [m])[..|ms|] == ms;
  }

  lemma UFlushSound(s: USend, first: nat, available: nat, b: UBatch)
    requires USound(s, first, available, b)
    ensures USound(s, first, available, UFlush(b, s.channelId))
  {
    AppendPacket(b.packets, SmallUnreliable(b.sequence, s.channelId, b.small));
  }

  /** Adding one queued message that fits. */
  lemma UAppendSound(s: USend, first: nat, available: nat, b: UBatch, m: Message)
    requires USound(s, first, available, b) && m in s.queue
    requires b.smallBytes + MessageSize(m) <= MAX_UBATCH
    ensures USound(s, first, available + |m|, b.(small := b.small + [m], smallBytes := b.smallBytes + MessageSize(m)))
  {
    hide Within, FromQueue, MessageSize, QueueBytes, MessagesSize, TotalPayload, Consecutive;
    MessagesSizeAppend(b.small, m);
    QueueBytesAppend(b.small, m);
    AppendStaysWithin(b.small, m, s.queue);
  }

  lemma UCollectSound(s: USend, first: nat, available: nat, b: UBatch, m: Message)
    requires USound(s, first, available, b) && m in s.queue && |m| <= SLICE_SIZE
    ensures USound(s, first, available + |m|, UCollect(b, s.channelId, m))
  {
    hide USound;
    if b.smallBytes + MessageSize(m) > SLICE_SIZE {
      UFlushSound(s, first, available, b);
      UAppendSound(s, first, available, UFlush(b, s.channelId), m);
    } else {
      UAppendSound(s, first, available, b, m);
    }
  }

  /** Cutting a message up changes nothing but packets and sequence, and pays for exactly its bytes. */
  lemma {:induction false} USlicesPayload(b: UBatch, channelId: byte, id: nat, m: Message, j: nat)
    requires j <= NumSlices(|m|)
    ensures var cut := USlices(b, channelId, id, m, j);
      && cut == b.(packets := cut.packets, sequence := cut.sequence)
      && TotalPayload(cut.packets) == TotalPayload(b.packets) + if j < NumSlices(|m|) then j * SLICE_SIZE else |m|
  {
    if j > 0 {
      USlicesPayload(b, channelId, id, m, j - 1);
      var cut := USlices(b, channelId, id, m, j - 1);
      AppendPacket(cut.packets,
                   UnreliableSlice(cut.sequence, channelId, Slice(id, j - 1, NumSlices(|m|), SliceOf(m, j - 1))));
    }
  }

  lemma {:induction false} USlicesContent(s: USend, first: nat, b: UBatch, m: Message, j: nat)
    requires j <= NumSlices(|m|) && |m| > SLICE_SIZE
    requires Consecutive(b.packets, first) && b.sequence == first + |b.packets|
    requires AllFromQueue(s, b.sliced, b.packets)
    ensures var cut := USlices(b, s.channelId, s.slicedId + |b.sliced|, m, j);
      && Consecutive(cut.packets, first) && cut.sequence == first + |cut.packets|
      && AllFromQueue(s, b.sliced + [m], cut.packets)
  {
    hide QueuedMessages;
    if j == 0 {
      forall p | p in b.packets
        ensures FromQueue(s, b.sliced + [m], p)
      {
        assert FromQueue(s, b.sliced, p);
      }
    } else {
      USlicesContent(s, first, b, m, j - 1);
    }
  }

  lemma USlicedSound(s: USend, first: nat, available: nat, b: UBatch, m: Message)
    requires USound(s, first, available, b) && |m| > SLICE_SIZE && m in s.queue
    ensures var cut := USlices(b, s.channelId, s.slicedId + |b.sliced|, m, NumSlices(|m|));
      USound(s, first, available + |m|, cut.(sliced := b.sliced + [m]))
  {
    hide Within, AllFromQueue, USlices, QueuedMessages, Consecutive, TotalPayload, QueueBytes, MessagesSize, NumSlices;
    USlicesPayload(b, s.channelId, s.slicedId + |b.sliced|, m, NumSlices(|m|));
    USlicesContent(s, first, b, m, NumSlices(|m|));
    AppendStaysWithin(b.sliced, m, s.queue);
  }

  lemma PaidSound(s: USend, first: nat, available: nat, b: UBatch, cost: nat)
    requires USound(s, first, available, b) && cost <= b.available
    ensures USound(s, first, available - cost, b.(available := b.available - cost))
  {
  }

  lemma {:induction false} UScanSound(s: USend, first: nat, available: nat, k: nat)
    requires k <= |s.queue|
    ensures USound(s, first, available, UScan(s, first, available, k))
  {
    if k > 0 {
      UScanSound(s, first, available, k - 1);
      hide USound, UCollect;
      var b, m := UScan(s, first, available, k - 1), s.queue[k - 1];
      if |m| <= b.available {
        var paid := b.(available := b.available - |m|);
        assert b.available <= available by { AvailableBound(s, first, available, b); }
        PaidSound(s, first, available, b, |m|);
        if |m| > SLICE_SIZE {
          USlicedSound(s, first, available - |m|, paid, m);
        } else {
          UCollectSound(s, first, available - |m|, paid, m);
        }
      }
    }
  }

  lemma AvailableBound(s: USend, first: nat, available: nat, b: UBatch)
    requires USound(s, first, available, b)
    ensures b.available <= available
  {
  }

  /**
   One tick: consecutive sequences, only queued data, a budget that drops by exactly the
   payload bytes, and an exact memory counter afterwards.
   */
  lemma UTickIsSound(s: USend, first: nat, available: nat)
    requires WfUSend(s)
    ensures var t := UGetPackets(s, first, available);
      && WfUSend(t.state) && t.state.queue == [] && t.state.memoryUsage == 0
      && Consecutive(t.packets, first) && t.sequence == first + |t.packets|
      && t.available + TotalPayload(t.packets) == available
      && (forall p :: p in t.packets ==> FromQueue(s, t.sliced, p))
      && Within(t.sliced, s.queue)
  {
    UScanSound(s, first, available, |s.queue|);
    UFlushSound(s, first, available, UScan(s, first, available, |s.queue|));
  }

  // ---------------------------------------------------------------- what a tick sends

  /** The queued messages among the first `k` that still fit the budget when their turn comes. */
  ghost function Kept(queue: seq<Message>, available: nat, k: nat): seq<Message>
    requires k <= |queue|
  {
    if k == 0 then []
    else
      var before := Kept(queue, available, k - 1);
      if QueueBytes(before) + |queue[k - 1]| <= available then before + [queue[k - 1]] else before
  }

  ghost function SmallOnes(ms: seq<Message>): seq<Message> {
    if ms == [] then []
    else SmallOnes(ms[..|ms| - 1]) + if |ms[|ms| - 1]| <= SLICE_SIZE then [ms[|ms| - 1]] else []
  }

  ghost function LargeOnes(ms: seq<Message>): seq<Message> {
    if ms == [] then []
    else LargeOnes(ms[..|ms| - 1]) + if |ms[|ms| - 1]| > SLICE_SIZE then [ms[|ms| - 1]] else []
  }

  /** The small messages in a list of packets, in order. */
  ghost function SmallSent(ps: seq<Packet>): seq<Message> {
    if ps == [] then []
    else SmallSent(ps[..|ps| - 1]) + if ps[|ps| - 1].SmallUnreliable? then ps[|ps| - 1].messages else []
  }

  /** The slices in a list of packets, in order. */
  ghost function SlicesSent(ps: seq<Packet>): seq<Slice> {
    if ps == [] then []
    else SlicesSent(ps[..|ps| - 1]) + if ps[|ps| - 1].UnreliableSlice? then [ps[|ps| - 1].slice] else []
  }

  /** The first `j` slices of message number `id`. */
  ghost function SlicesOf(id: nat, m: Message, j: nat): seq<Slice>
    requires j <= NumSlices(|m|)
  {
    if j == 0 then [] else SlicesOf(id, m, j - 1) + [Slice(id, j - 1, NumSlices(|m|), SliceOf(m, j - 1))]
  }

  /** All slices of the messages, numbered from `id`. */
  ghost function AllSlices(id: nat, ms: seq<Message>): seq<Slice> {
    if ms == [] then []
    else
      var m := ms[|ms| - 1];
      AllSlices(id, ms[..|ms| - 1]) + SlicesOf(id + |ms| - 1, m, NumSlices(|m|))
  }

  lemma SentAppend(ps: seq<Packet>, p: Packet)
    ensures SmallSent(ps + [p]) == SmallSent(ps) + if p.SmallUnreliable? then p.messages else []
    ensures SlicesSent(ps + [p]) == SlicesSent(ps) + if p.UnreliableSlice? then [p.slice] else []
  {
    assert (ps + [p])[..|ps|] == ps;
  }

  lemma OnesAppend(ms: seq<Message>, m: Message)
    ensures SmallOnes(ms + [m]) == SmallOnes(ms) + if |m| <= SLICE_SIZE then [m] else []
    ensures LargeOnes(ms + [m]) == LargeOnes(ms) + if |m| > SLICE_SIZE then [m] else []
  {
    assert (ms + [m])[..|ms|] == ms;
  }

  lemma {:induction false} USlicesSend(b: UBatch, channelId: byte, id: nat, m: Message, j: nat)
    requires j <= NumSlices(|m|)
    ensures var c := USlices(b, channelId, id, m, j);
      && SmallSent(c.packets) == SmallSent(b.packets)
      && SlicesSent(c.packets) == SlicesSent(b.packets) + SlicesOf(id, m, j)
      && c.small == b.small && c.sliced == b.sliced && c.available == b.available
  {
    hide NumSlices, SliceOf, SmallSent, SlicesSent;
    if j == 0 {
      assert SlicesSent(b.packets) + [] == SlicesSent(b.packets);
    } else {
      USlicesSend(b, channelId, id, m, j - 1);
      var c := USlices(b, channelId, id, m, j - 1);
      var sl := Slice(id, j - 1, NumSlices(|m|), SliceOf(m, j - 1));
      SliceAppend(c.packets, UnreliableSlice(c.sequence, channelId, sl));
      Associate(SlicesSent(b.packets), SlicesOf(id, m, j - 1), [sl]);
    }
  }

  lemma SliceAppend(ps: seq<Packet>, p: Packet)
    requires p.UnreliableSlice?
    ensures SmallSent(ps + [p]) == SmallSent(ps) && SlicesSent(ps + [p]) == SlicesSent(ps) + [p.slice]
  {
    SentAppend(ps, p);
    assert SmallSent(ps) + [] == SmallSent(ps);
  }

  lemma Associate<T>(a: seq<T>, b: seq<T>, c: seq<T>)
    ensures a + b + c == a + (b + c)
  {
  }

  /** What has been sent or collected after the messages `kept` were taken. */
  ghost predicate Sends(s: USend, available: nat, b: UBatch, kept: seq<Message>) {
    && b.available + QueueBytes(kept) == available
    && SmallSent(b.packets) + b.small == SmallOnes(kept)
    && b.sliced == LargeOnes(kept)
    && SlicesSent(b.packets) == AllSlices(s.slicedId, b.sliced)
  }

  lemma UFlushSends(s: USend, available: nat, b: UBatch, kept: seq<Message>)
    requires Sends(s, available, b, kept)
    ensures Sends(s, available, UFlush(b, s.channelId), kept)
  {
    SentAppend(b.packets, SmallUnreliable(b.sequence, s.channelId, b.small));
  }

  lemma UCollectSends(s: USend, available: nat, b: UBatch, kept: seq<Message>, m: Message)
    requires Sends(s, available, b, kept) && |m| <= SLICE_SIZE && |m| <= b.available
    ensures Sends(s, available, UCollect(b.(available := b.available - |m|), s.channelId, m), kept + [m])
  {
    OnesAppend(kept, m);
    QueueBytesAppend(kept, m);
    UFlushSends(s, available, b, kept);
    assert LargeOnes(kept) + [] == LargeOnes(kept);
    var f := if b.smallBytes + MessageSize(m) > SLICE_SIZE then UFlush(b, s.channelId) else b;
    assert SmallSent(f.packets) + (f.small + [m]) == SmallSent(f.packets) + f.small + [m];
  }

  lemma UCutSends(s: USend, available: nat, b: UBatch, kept: seq<Message>, m: Message)
    requires Sends(s, available, b, kept) && |m| > SLICE_SIZE && |m| <= b.available
    ensures Sends(s, available, UVisit(b, s, m), kept + [m])
  {
    hide NumSlices, USlices;
    OnesAppend(kept, m);
    QueueBytesAppend(kept, m);
    USlicesSend(b.(available := b.available - |m|), s.channelId, s.slicedId + |b.sliced|, m, NumSlices(|m|));
    assert SmallOnes(kept) + [] == SmallOnes(kept);
    assert (b.sliced + [m])[..|b.sliced|] == b.sliced;
  }

  lemma {:induction false} UScanSends(s: USend, sequence: nat, available: nat, k: nat)
    requires k <= |s.queue|
    ensures Sends(s, available, UScan(s, sequence, available, k), Kept(s.queue, available, k))
  {
    if k > 0 {
      UScanSends(s, sequence, available, k - 1);
      hide Sends, UCollect;
      var b, kept, m := UScan(s, sequence, available, k - 1), Kept(s.queue, available, k - 1), s.queue[k - 1];
      assert b.available + QueueBytes(kept) == available by { SendsBudget(s, available, b, kept); }
      if |m| <= b.available {
        if |m| > SLICE_SIZE {
          UCutSends(s, available, b, kept, m);
        } else {
          UCollectSends(s, available, b, kept, m);
        }
      }
    }
  }

  lemma SendsBudget(s: USend, available: nat, b: UBatch, kept: seq<Message>)
    requires Sends(s, available, b, kept)
    ensures b.available + QueueBytes(kept) == available
  {
  }

  /**
   One tick sends exactly the queued messages that fit the budget when their turn comes:
   the small ones whole and in order, the large ones as all of their slices in order.
   */
  lemma UTickSendsKept(s: USend, first: nat, available: nat)
    requires WfUSend(s)
    ensures var t := UGetPackets(s, first, available);
      var kept := Kept(s.queue, available, |s.queue|);
      && SmallSent(t.packets) == SmallOnes(kept)
      && t.sliced == LargeOnes(kept)
      && SlicesSent(t.packets) == AllSlices(s.slicedId, t.sliced)
      && t.available + QueueBytes(kept) == available
  {
    UScanSends(s, first, available, |s.queue|);
    var r, kept := UScan(s, first, available, |s.queue|), Kept(s.queue, available, |s.queue|);
    UFlushSends(s, available, r, kept);
    assert SmallSent(r.packets) + [] == SmallSent(r.packets);
    var f := UFlush(r, s.channelId);
    assert SmallSent(f.packets) + [] == SmallSent(f.packets);
  }

  /** With a budget of at least the queue, everything is sent. */
  lemma {:induction false} EnoughKeepsAll(queue: seq<Message>, available: nat, k: nat)
    requires k <= |queue| && QueueBytes(queue[..k]) <= available
    ensures Kept(queue, available, k) == queue[..k]
  {
    if k > 0 {
      assert queue[..k] == queue[..k - 1] + [queue[k - 1]];
      QueueBytesAppend(queue[..k - 1], queue[k - 1]);
      EnoughKeepsAll(queue, available, k - 1);
    }
  }

  // ---------------------------------------------------------------- receiving

  datatype URecv = URecv(
    queue: seq<Message>,
    slices: map<nat, Constructor>,
    lastReceived: map<nat, Time>,
    maxMemory: nat,
    memoryUsage: nat)

  function NewRecv(maxMemory: nat): URecv {
    URecv([], map[], map[], maxMemory, 0)
  }

  datatype UOutcome = UOutcome(state: URecv, error: Option<RecvError>)

  /** `process_message`: a message that does not fit is dropped. */
  function UProcessMessage(r: URecv, m: Message): URecv {
    if r.memoryUsage + |m| > r.maxMemory then r
    else r.(memoryUsage := r.memoryUsage + |m|, queue := r.queue + [m])
  }

  function UReserve(r: URecv, sl: Slice): Option<URecv> {
    if sl.messageId in r.slices then Some(r)
    else if r.memoryUsage + sl.numSlices * SLICE_SIZE > r.maxMemory then None
    else Some(r.(slices := r.slices[sl.messageId := Fresh(sl.numSlices)],
                 memoryUsage := r.memoryUsage + sl.numSlices * SLICE_SIZE))
  }

  function UFinish(r: URecv, sl: Slice, m: Message): UOutcome {
    if r.memoryUsage < sl.numSlices * SLICE_SIZE then UOutcome(r, Some(RecvPanic))
    else UOutcome(r.(slices := r.slices - {sl.messageId},
                     lastReceived := r.lastReceived - {sl.messageId},
                     memoryUsage := r.memoryUsage - sl.numSlices * SLICE_SIZE + |m|,
                     queue := r.queue + [m]), None)
  }

  /** The slice goes to the constructor of its message. */
  function Absorb(r: URecv, sl: Slice, now: Time): UOutcome
    requires sl.messageId in r.slices
  {
    var id := sl.messageId;
    var o := Process(r.slices[id], sl.sliceIndex, sl.payload);
    var r' := r.(slices := r.slices[id := o.constructor_]);
    match o.result
    case Incomplete => UOutcome(r'.(lastReceived := r'.lastReceived[id := now]), None)
    case Complete(m) => UFinish(r', sl, m)
    case InvalidSlice => UOutcome(r', Some(InvalidSliceMessage))
    case SlicePanic => UOutcome(r', Some(RecvPanic))
  }

  /** `process_slice`: a message for which there is no memory is dropped without an error. */
  function UProcessSlice(r: URecv, sl: Slice, now: Time): UOutcome {
    var reserved := UReserve(r, sl);
    if reserved.None? then UOutcome(r, None) else Absorb(reserved.value, sl, now)
  }

  const DISCARD_AFTER: Time := 3_000_000_000

  predicate Stale(last: map<nat, Time>, now: Time, id: nat) {
    id in last && now - last[id] >= DISCARD_AFTER
  }

  /** The scan in id order that stops at the first id that is not stale. */
  function Lost(last: map<nat, Time>, now: Time, keys: set<nat>): set<nat>
    decreases |keys|
  {
    if keys == {} then {}
    else
      var k := First(keys);
      if Stale(last, now, k) then {k} + Lost(last, now, keys - {k}) else {}
  }

  /** `discard_incomplete_old_slices`. */
  function Discard(r: URecv, now: Time): URecv
    requires SliceBytes(r.slices) <= r.memoryUsage
  {
    var lost := Lost(r.lastReceived, now, r.lastReceived.Keys);
    r.(lastReceived := r.lastReceived - lost,
       slices := r.slices - lost,
       memoryUsage := r.memoryUsage - SliceBytes(r.slices) + SliceBytes(r.slices - lost))
  }

  /** `receive_message`. */
  function UReceive(r: URecv): (URecv, Option<Message>)
    requires r.queue != [] ==> |r.queue[0]| <= r.memoryUsage
  {
    if r.queue == [] then (r, None)
    else (r.(queue := r.queue[1..], memoryUsage := r.memoryUsage - |r.queue[0]|), Some(r.queue[0]))
  }

  /**
   `sent` are the messages the peer's channel accepted and `sliced` those it cut up, by
   number. Everything held stems from them, and the memory counter is exact.
   */
  ghost predicate URecvInv(r: URecv, sent: seq<Message>, sliced: seq<Message>, now: Time) {
    && Within(r.queue, sent)
    && Within(sliced, sent)
    && (forall id :: id in r.slices ==>
         id < |sliced| && |sliced[id]| > SLICE_SIZE && Partial(r.slices[id], sliced[id]))
    && r.lastReceived.Keys <= r.slices.Keys
    && (forall id :: id in r.lastReceived ==> r.lastReceived[id] <= now)
    && r.memoryUsage == QueueBytes(r.queue) + SliceBytes(r.slices) <= r.maxMemory
  }

  lemma UProcessMessageInv(r: URecv, sent: seq<Message>, sliced: seq<Message>, now: Time, m: Message)
    requires URecvInv(r, sent, sliced, now) && m in sent
    ensures URecvInv(UProcessMessage(r, m), sent, sliced, now)
  {
    hide Partial;
    QueueBytesAppend(r.queue, m);
    AppendStaysWithin(r.queue, m, sent);
  }

  lemma UReserveInv(r: URecv, sent: seq<Message>, sliced: seq<Message>, now: Time, sl: Slice)
    requires URecvInv(r, sent, sliced, now) && GenuineSlice(sliced, sl)
    ensures var o := UReserve(r, sl);
      o.Some? ==> URecvInv(o.value, sent, sliced, now) && sl.messageId in o.value.slices
  {
    if sl.messageId !in r.slices {
      FreshIsPartial(sliced[sl.messageId]);
      SliceBytesInsert(r.slices, sl.messageId, Fresh(sl.numSlices));
    }
  }

  lemma UAdvanceInv(r: URecv, sent: seq<Message>, sliced: seq<Message>, now: Time, id: nat, c: Constructor)
    requires URecvInv(r, sent, sliced, now) && id in r.slices && Partial(c, sliced[id])
    ensures URecvInv(r.(slices := r.slices[id := c], lastReceived := r.lastReceived[id := now]), sent, sliced, now)
  {
    SliceBytesInsert(r.slices, id, c);
  }

  lemma RemoveSet(slices: map<nat, Constructor>, id: nat, c: Constructor)
    ensures slices[id := c] - {id} == slices - {id}
  {
  }

  lemma InSent(sliced: seq<Message>, id: nat, sent: seq<Message>)
    requires Within(sliced, sent) && id < |sliced|
    ensures sliced[id] in sent
  {
  }

  lemma UFinishInv(r: URecv, sent: seq<Message>, sliced: seq<Message>, now: Time, sl: Slice, c: Constructor)
    requires URecvInv(r, sent, sliced, now) && GenuineSlice(sliced, sl) && sl.messageId in r.slices
    ensures var o := UFinish(r.(slices := r.slices[sl.messageId := c]), sl, sliced[sl.messageId]);
      o.error.None? && URecvInv(o.state, sent, sliced, now)
  {
    hide Partial, SliceBytes, Within, QueueBytes, NumSlices;
    var id, m := sl.messageId, sliced[sl.messageId];
    ConstructorSize(r.slices[id], m);
    SliceBytesRemove(r.slices, id);
    RemoveSet(r.slices, id, c);
    assert m in sent by { InSent(sliced, id, sent); }
    QueueBytesAppend(r.queue, m);
    AppendStaysWithin(r.queue, m, sent);
  }

  /** A slice the peer sent never causes an error, and what it completes is what was sent. */
  lemma UProcessSliceInv(r: URecv, sent: seq<Message>, sliced: seq<Message>, now: Time, sl: Slice)
    requires URecvInv(r, sent, sliced, now) && GenuineSlice(sliced, sl)
    ensures var o := UProcessSlice(r, sl, now); o.error.None? && URecvInv(o.state, sent, sliced, now)
  {
    UReserveInv(r, sent, sliced, now, sl);
    if UReserve(r, sl).Some? {
      var r1 := UReserve(r, sl).value;
      var c := r1.slices[sl.messageId];
      ProcessGenuine(c, sliced[sl.messageId], sl.sliceIndex);
      var o := Process(c, sl.sliceIndex, sl.payload);
      if o.result == Incomplete {
        UAdvanceInv(r1, sent, sliced, now, sl.messageId, o.constructor_);
      } else {
        UFinishInv(r1, sent, sliced, now, sl, o.constructor_);
      }
      hide Process, Partial, URecvInv;
    }
  }

  lemma {:induction false} LostIsStale(last: map<nat, Time>, now: Time, keys: set<nat>)
    ensures Lost(last, now, keys) <= keys
    ensures forall id :: id in Lost(last, now, keys) ==> Stale(last, now, id)
    decreases |keys|
  {
    if keys != {} {
      LostIsStale(last, now, keys - {First(keys)});
    }
  }

  lemma {:induction false} SliceBytesWithout(slices: map<nat, Constructor>, lost: set<nat>)
    ensures SliceBytes(slices - lost) <= SliceBytes(slices)
    decreases |lost|
  {
    if lost == {} {
      assert slices - lost == slices;
    } else {
      var k :| k in lost;
      SliceBytesWithout(slices, lost - {k});
      var kept := slices - (lost - {k});
      assert slices - lost == kept - {k};
      if k in kept {
        SliceBytesRemove(kept, k);
      } else {
        assert kept - {k} == kept;
      }
    }
  }

  /** Discarding drops only stale constructors and gives exactly their memory back. */
  lemma DiscardInv(r: URecv, sent: seq<Message>, sliced: seq<Message>, now: Time)
    requires URecvInv(r, sent, sliced, now)
    ensures URecvInv(Discard(r, now), sent, sliced, now)
    ensures Discard(r, now).queue == r.queue
    ensures forall id :: id in r.slices && id !in Discard(r, now).slices ==> Stale(r.lastReceived, now, id)
  {
    var lost := Lost(r.lastReceived, now, r.lastReceived.Keys);
    LostIsStale(r.lastReceived, now, r.lastReceived.Keys);
    SliceBytesWithout(r.slices, lost);
    hide Partial, SliceBytes;
  }

  lemma {:induction false} LostAllStale(last: map<nat, Time>, now: Time, keys: set<nat>)
    requires keys <= last.Keys
    requires forall a, b :: a in keys && b in keys && a < b && Stale(last, now, b) ==> Stale(last, now, a)
    ensures forall id :: id in keys && Stale(last, now, id) ==> id in Lost(last, now, keys)
    decreases |keys|
  {
    if keys != {} {
      var k := First(keys);
      if Stale(last, now, k) {
        LostAllStale(last, now, keys - {k});
        assert forall id :: id in keys ==> id == k || id in keys - {k};
      }
    }
  }

  lemma {:induction false} LostIsPrefix(last: map<nat, Time>, now: Time, keys: set<nat>, a: nat, b: nat)
    requires a in keys && b in keys && a < b && b in Lost(last, now, keys)
    ensures Stale(last, now, a)
    decreases |keys|
  {
    var k := First(keys);
    if a != k {
      LostIsPrefix(last, now, keys - {k}, a, b);
    }
  }

  /**
   The early exit of the scan is not the same as a full filter in general: it is exactly
   when no stale message has a higher id than one that is not stale.
   */
  lemma EarlyExitIsFilterIff(last: map<nat, Time>, now: Time)
    ensures (forall id :: id in Lost(last, now, last.Keys) <==> Stale(last, now, id)) <==>
            (forall a, b :: a in last && b in last && a < b && Stale(last, now, b) ==> Stale(last, now, a))
  {
    LostIsStale(last, now, last.Keys);
    if forall a, b :: a in last && b in last && a < b && Stale(last, now, b) ==> Stale(last, now, a) {
      LostAllStale(last, now, last.Keys);
    }
    if forall id :: id in Lost(last, now, last.Keys) <==> Stale(last, now, id) {
      forall a, b | a in last && b in last && a < b && Stale(last, now, b)
        ensures Stale(last, now, a)
      {
        LostIsPrefix(last, now, last.Keys, a, b);
      }
    }
  }

  lemma UReceiveInv(r: URecv, sent: seq<Message>, sliced: seq<Message>, now: Time)
    requires URecvInv(r, sent, sliced, now)
    ensures r.queue != [] ==> |r.queue[0]| <= r.memoryUsage
    ensures var (r', m) := UReceive(r); URecvInv(r', sent, sliced, now) && (m.Some? ==> m.value in sent)
  {
    hide Partial;
    if r.queue != [] {
      QueueBytesTail(r.queue);
    }
  }
}
