/**
 The receiving half of a reliable channel (`ReceiveChannelReliable` in
 renet/src/channel/reliable.rs) as functions of its state.
 */
module ReliableReceive {
  import opened Common
  import opened Slicing
  import opened Wire

  datatype Order = Ordered | Unordered(mostRecent: nat, received: set<nat>)

  datatype RecvState = RecvState(
    slices: map<nat, Constructor>,
    messages: map<nat, Message>,
    oldest: nat,
    order: Order,
    memoryUsage: nat,
    maxMemory: nat)

  datatype RecvError = MaxMemoryReached | InvalidSliceMessage | RecvPanic

  datatype RecvOutcome = RecvOutcome(state: RecvState, error: Option<RecvError>)

  function New(maxMemory: nat, ordered: bool): RecvState {
    RecvState(map[], map[], 0, if ordered then Ordered else Unordered(0, {}), 0, maxMemory)
  }

  // ---------------------------------------------------------------- operations

  /** `process_message`. */
  function ProcessMessage(r: RecvState, m: Message, id: nat): RecvOutcome {
    if id < r.oldest then RecvOutcome(r, None)
    else
      match r.order
      case Ordered =>
        if id in r.messages then RecvOutcome(r, None)
        else if r.memoryUsage + |m| > r.maxMemory then RecvOutcome(r, Some(MaxMemoryReached))
        else RecvOutcome(r.(messages := r.messages[id := m], memoryUsage := r.memoryUsage + |m|), None)
      case Unordered(mostRecent, received) =>
        var recent := if mostRecent < id then id else mostRecent;
        if id in received then RecvOutcome(r.(order := Unordered(recent, received)), None)
        else if r.memoryUsage + |m| > r.maxMemory then
          RecvOutcome(r.(order := Unordered(recent, received)), Some(MaxMemoryReached))
        else
          RecvOutcome(r.(order := Unordered(recent, received + {id}),
                         messages := r.messages[id := m],
                         memoryUsage := r.memoryUsage + |m|), None)
  }

  /** The constructor of the slice's message, after reserving memory for it if it is new. */
  function Reserve(r: RecvState, sl: Slice): Option<RecvState> {
    if sl.messageId in r.slices then Some(r)
    else if r.memoryUsage + sl.numSlices * SLICE_SIZE > r.maxMemory then None
    else Some(r.(slices := r.slices[sl.messageId := Fresh(sl.numSlices)],
                 memoryUsage := r.memoryUsage + sl.numSlices * SLICE_SIZE))
  }

  /** The last slice of message `sl.messageId` has arrived and completed it. */
  function Finish(r: RecvState, sl: Slice, m: Message): RecvOutcome {
    if r.memoryUsage < sl.numSlices * SLICE_SIZE then RecvOutcome(r, Some(RecvPanic))
    else
      var o := ProcessMessage(r.(memoryUsage := r.memoryUsage - sl.numSlices * SLICE_SIZE), m, sl.messageId);
      if o.error.Some? then o else RecvOutcome(o.state.(slices := o.state.slices - {sl.messageId}), None)
  }

  /** `process_slice`. */
  function ProcessSlice(r: RecvState, sl: Slice): RecvOutcome {
    if sl.messageId in r.messages || sl.messageId < r.oldest then RecvOutcome(r, None)
    else
      var reserved := Reserve(r, sl);
      if reserved.None? then RecvOutcome(r, Some(MaxMemoryReached))
      else
        var o := Process(reserved.value.slices[sl.messageId], sl.sliceIndex, sl.payload);
        var r' := reserved.value.(slices := reserved.value.slices[sl.messageId := o.constructor_]);
        match o.result
        case Incomplete => RecvOutcome(r', None)
        case Complete(m) => Finish(r', sl, m)
        case InvalidSlice => RecvOutcome(r', Some(InvalidSliceMessage))
        case SlicePanic => RecvOutcome(r', Some(RecvPanic))
  }

  /** The loop that moves `oldest` past ids that were received out of order. */
  function CatchUp(oldest: nat, received: set<nat>): (nat, set<nat>)
    decreases |received|
  {
    if oldest in received then CatchUp(oldest + 1, received - {oldest}) else (oldest, received)
  }

  /** The id whose message `receive_message` would return. */
  function NextId(r: RecvState): Option<nat> {
    match r.order
    case Ordered => if r.oldest in r.messages then Some(r.oldest) else None
    case Unordered(_, _) => if r.messages == map[] then None else Some(First(r.messages.Keys))
  }

  datatype Received = Received(state: RecvState, message: Option<Message>)

  /** `receive_message`. */
  function Receive(r: RecvState): Received
    requires NextId(r).Some? ==> |r.messages[NextId(r).value]| <= r.memoryUsage
  {
    if NextId(r).None? then Received(r, None)
    else
      var id := NextId(r).value;
      var taken := r.(messages := r.messages - {id}, memoryUsage := r.memoryUsage - |r.messages[id]|);
      match r.order
      case Ordered => Received(taken.(oldest := r.oldest + 1), Some(r.messages[id]))
      case Unordered(mostRecent, received) =>
        var caught := if r.oldest == id then CatchUp(r.oldest, received) else (r.oldest, received);
        Received(taken.(oldest := caught.0, order := Unordered(mostRecent, caught.1)), Some(r.messages[id]))
  }

  // ---------------------------------------------------------------- memory

  ghost function Lengths(messages: map<nat, Message>): map<nat, nat> {
    map id | id in messages :: |messages[id]|
  }

  function Reservations(slices: map<nat, Constructor>): map<nat, nat> {
    map id | id in slices :: slices[id].numSlices * SLICE_SIZE
  }

  ghost function MessageBytes(messages: map<nat, Message>): nat {
    Total(Lengths(messages))
  }

  function SliceBytes(slices: map<nat, Constructor>): nat {
    Total(Reservations(slices))
  }

  lemma MessageBytesInsert(messages: map<nat, Message>, id: nat, m: Message)
    requires id !in messages
    ensures MessageBytes(messages[id := m]) == MessageBytes(messages) + |m|
  {
    TotalInsert(Lengths(messages), id, |m|);
    assert Lengths(messages[id := m]) == Lengths(messages)[id := |m|];
  }

  lemma MessageBytesRemove(messages: map<nat, Message>, id: nat)
    requires id in messages
    ensures MessageBytes(messages) == MessageBytes(messages - {id}) + |messages[id]|
  {
    TotalRemove(Lengths(messages), id);
    assert Lengths(messages - {id}) == Lengths(messages) - {id};
  }

  lemma SliceBytesInsert(slices: map<nat, Constructor>, id: nat, c: Constructor)
    requires id in slices ==> slices[id].numSlices == c.numSlices
    ensures SliceBytes(slices[id := c]) ==
            SliceBytes(slices) + if id in slices then 0 else c.numSlices * SLICE_SIZE
  {
    var size := c.numSlices * SLICE_SIZE;
    if id in slices {
      assert Reservations(slices[id := c]) == Reservations(slices);
    } else {
      TotalInsert(Reservations(slices), id, size);
      assert Reservations(slices[id := c]) == Reservations(slices)[id := size];
    }
  }

  lemma SliceBytesRemove(slices: map<nat, Constructor>, id: nat)
    requires id in slices
    ensures SliceBytes(slices) == SliceBytes(slices - {id}) + slices[id].numSlices * SLICE_SIZE
  {
    TotalRemove(Reservations(slices), id);
    assert Reservations(slices - {id}) == Reservations(slices) - {id};
  }

  /** The memory counter is exact and within its limit. */
  ghost predicate MemoryExact(r: RecvState) {
    r.memoryUsage == MessageBytes(r.messages) + SliceBytes(r.slices) <= r.maxMemory
  }

  // ---------------------------------------------------------------- invariant

  /** The channel has taken message `id` in, whether or not it was handed out already. */
  ghost predicate Accepted(r: RecvState, id: nat) {
    id < r.oldest || if r.order.Ordered? then id in r.messages else id in r.order.received
  }

  /** The channel has slice `i` of message `id`, or the whole message. */
  ghost predicate GotSlice(r: RecvState, id: nat, i: nat) {
    Accepted(r, id) || (id in r.slices && i < |r.slices[id].received| && r.slices[id].received[i])
  }

  /**
   Nothing is forgotten and nothing is handed out twice: the accepted ids are the ones
   delivered so far plus the ones still held, without overlap. On an ordered channel the
   delivered ids are 0, 1, 2, ... in this order; on an unordered one none is above the
   most recent id.
   */
  ghost predicate Ledger(r: RecvState, delivered: seq<nat>) {
    && Distinct(delivered)
    && (forall id :: Accepted(r, id) <==> id in delivered || id in r.messages)
    && (forall id :: id in delivered ==> id !in r.messages)
    && match r.order
       case Ordered => |delivered| == r.oldest && forall i :: 0 <= i < |delivered| ==> delivered[i] == i
       case Unordered(mostRecent, received) =>
         && (forall id :: id in received ==> r.oldest <= id)
         && (forall id: nat :: Accepted(r, id) ==> id <= mostRecent)
         && (r.oldest in received ==> r.oldest in r.messages)
  }

  /** Everything held is byte for byte what the peer sent. */
  ghost predicate Faithful(r: RecvState, sent: seq<Message>) {
    && (forall id :: id in r.messages ==> id < |sent| && r.messages[id] == sent[id])
    && (forall id :: id in r.slices ==>
         id < |sent| && |sent[id]| > SLICE_SIZE && Partial(r.slices[id], sent[id]))
    && (r.order.Ordered? ==> forall id :: id in r.slices ==> !Accepted(r, id))
  }

  ghost predicate RecvInv(r: RecvState, sent: seq<Message>, delivered: seq<nat>) {
    MemoryExact(r) && Ledger(r, delivered) && Faithful(r, sent)
  }

  /** Later states have everything that earlier ones had. */
  ghost predicate Grows(r: RecvState, r': RecvState) {
    && (forall id :: Accepted(r, id) ==> Accepted(r', id))
    && (forall id, i :: GotSlice(r, id, i) ==> GotSlice(r', id, i))
  }

  lemma NewInv(maxMemory: nat, ordered: bool)
    ensures RecvInv(New(maxMemory, ordered), [], [])
  {
  }

  // ---------------------------------------------------------------- process_message

  lemma ProcessMessageMemory(r: RecvState, m: Message, id: nat)
    requires MemoryExact(r)
    requires id in r.messages ==> Accepted(r, id)
    ensures MemoryExact(ProcessMessage(r, m, id).state)
  {
    if id !in r.messages {
      MessageBytesInsert(r.messages, id, m);
    }
  }

  lemma ProcessMessageLedger(r: RecvState, m: Message, id: nat, delivered: seq<nat>)
    requires Ledger(r, delivered)
    ensures var o := ProcessMessage(r, m, id);
      && Ledger(o.state, delivered)
      && (forall k :: Accepted(o.state, k) <==> Accepted(r, k) || (k == id && o.error.None?))
      && o.state.slices == r.slices
  {
  }

  /** A whole message from the peer, of which no slices are held. */
  lemma ProcessMessageInv(r: RecvState, sent: seq<Message>, delivered: seq<nat>, id: nat)
    requires RecvInv(r, sent, delivered) && id < |sent| && id !in r.slices
    ensures var o := ProcessMessage(r, sent[id], id);
      && RecvInv(o.state, sent, delivered)
      && Grows(r, o.state)
      && (o.error.None? ==> Accepted(o.state, id))
      && (o.error.None? || o.error == Some(MaxMemoryReached))
  {
    ProcessMessageMemory(r, sent[id], id);
    ProcessMessageLedger(r, sent[id], id, delivered);
  }

  // ---------------------------------------------------------------- process_slice

  lemma GotAlready(r: RecvState, delivered: seq<nat>, sl: Slice)
    requires Ledger(r, delivered) && (sl.messageId in r.messages || sl.messageId < r.oldest)
    ensures GotSlice(r, sl.messageId, sl.sliceIndex) && Grows(r, r)
  {
    assert Accepted(r, sl.messageId);
  }

  /** `sl` is a slice of one of the messages in `sent`. */
  ghost predicate GenuineSlice(sent: seq<Message>, sl: Slice) {
    && sl.messageId < |sent|
    && var m := sent[sl.messageId];
      && |m| > SLICE_SIZE
      && sl.numSlices == NumSlices(|m|)
      && sl.sliceIndex < sl.numSlices
      && sl.payload == SliceOf(m, sl.sliceIndex)
  }

  /** Setting the constructor of `id` changes the ledger in nothing. */
  lemma SetConstructor(r: RecvState, sent: seq<Message>, delivered: seq<nat>, id: nat, c: Constructor, usage: nat)
    requires Ledger(r, delivered) && Faithful(r, sent)
    requires id < |sent| && |sent[id]| > SLICE_SIZE && Partial(c, sent[id])
    requires r.order.Ordered? ==> !Accepted(r, id)
    ensures var r' := r.(slices := r.slices[id := c], memoryUsage := usage);
      Ledger(r', delivered) && Faithful(r', sent)
  {
    hide Partial, Accepted, Distinct;
    var r' := r.(slices := r.slices[id := c], memoryUsage := usage);
    assert forall k :: Accepted(r', k) == Accepted(r, k) by { AcceptedFrame(r, r'); }
  }

  lemma AcceptedFrame(r: RecvState, r': RecvState)
    requires r'.oldest == r.oldest && r'.messages == r.messages && r'.order == r.order
    ensures forall k :: Accepted(r', k) == Accepted(r, k)
  {
  }

  lemma ReserveInv(r: RecvState, sent: seq<Message>, delivered: seq<nat>, sl: Slice)
    requires RecvInv(r, sent, delivered) && GenuineSlice(sent, sl)
    requires sl.messageId !in r.messages && r.oldest <= sl.messageId
    ensures var o := Reserve(r, sl);
      o.Some? ==> RecvInv(o.value, sent, delivered) && Grows(r, o.value) && sl.messageId in o.value.slices
  {
    hide Ledger, Faithful, Partial, SliceBytes, MessageBytes;
    var id := sl.messageId;
    if id !in r.slices && Reserve(r, sl).Some? {
      FreshIsPartial(sent[id]);
      SliceBytesInsert(r.slices, id, Fresh(sl.numSlices));
      SetConstructor(r, sent, delivered, id, Fresh(sl.numSlices), r.memoryUsage + sl.numSlices * SLICE_SIZE);
    }
  }

  /** Replacing the constructor of `id` by one with more slices. */
  lemma AdvanceInv(r: RecvState, sent: seq<Message>, delivered: seq<nat>, id: nat, c: Constructor)
    requires RecvInv(r, sent, delivered) && id in r.slices
    requires id < |sent| && |sent[id]| > SLICE_SIZE && Partial(c, sent[id]) && Partial(r.slices[id], sent[id])
    requires r.order.Ordered? ==> !Accepted(r, id)
    requires forall i :: 0 <= i < |c.received| && r.slices[id].received[i] ==> c.received[i]
    ensures var r' := r.(slices := r.slices[id := c]); RecvInv(r', sent, delivered) && Grows(r, r')
  {
    hide Ledger, Faithful, SliceBytes, MessageBytes;
    SliceBytesInsert(r.slices, id, c);
    SetConstructor(r, sent, delivered, id, c, r.memoryUsage);
  }

  lemma HeldConstructor(r: RecvState, sent: seq<Message>, id: nat)
    requires Faithful(r, sent) && id in r.slices
    ensures id < |sent| && |sent[id]| > SLICE_SIZE && Partial(r.slices[id], sent[id])
    ensures r.order.Ordered? ==> !Accepted(r, id)
  {
  }

  /** `process_message` looks only at memory, ids and held messages, not at the constructors. */
  lemma ProcessMessageIgnoresSlices(r: RecvState, m: Message, id: nat, slices: map<nat, Constructor>)
    ensures var o := ProcessMessage(r, m, id);
      ProcessMessage(r.(slices := slices), m, id) == RecvOutcome(o.state.(slices := slices), o.error)
  {
  }

  /** The state without the constructor of `id` and without its memory. */
  ghost function Release(r: RecvState, id: nat): RecvState
    requires id in r.slices && r.slices[id].numSlices * SLICE_SIZE <= r.memoryUsage
  {
    r.(slices := r.slices - {id}, memoryUsage := r.memoryUsage - r.slices[id].numSlices * SLICE_SIZE)
  }

  lemma ReleaseInv(r: RecvState, sent: seq<Message>, delivered: seq<nat>, id: nat)
    requires RecvInv(r, sent, delivered) && id in r.slices
    ensures r.slices[id].numSlices * SLICE_SIZE <= r.memoryUsage
    ensures RecvInv(Release(r, id), sent, delivered)
  {
    SliceBytesRemove(r.slices, id);
  }

  lemma FinishIsRelease(r: RecvState, sl: Slice, c: Constructor, m: Message)
    requires sl.messageId in r.slices && r.slices[sl.messageId].numSlices == sl.numSlices
    requires sl.numSlices * SLICE_SIZE <= r.memoryUsage <= r.maxMemory && |m| <= sl.numSlices * SLICE_SIZE
    ensures ProcessMessage(Release(r, sl.messageId), m, sl.messageId).error.None?
    ensures Finish(r.(slices := r.slices[sl.messageId := c]), sl, m) ==
            ProcessMessage(Release(r, sl.messageId), m, sl.messageId)
  {
    var id := sl.messageId;
    var full := r.(slices := r.slices[id := c], memoryUsage := r.memoryUsage - sl.numSlices * SLICE_SIZE);
    ProcessMessageIgnoresSlices(full, m, id, r.slices - {id});
    assert r.slices[id := c] - {id} == r.slices - {id};
  }

  lemma ConstructorSize(c: Constructor, m: Message)
    requires Partial(c, m)
    ensures c.numSlices == NumSlices(|m|) && |m| <= c.numSlices * SLICE_SIZE
  {
  }

  lemma WithinLimit(r: RecvState)
    requires MemoryExact(r)
    ensures r.memoryUsage <= r.maxMemory
  {
  }

  /** The message takes the place of its released constructor. */
  lemma ReleasedInv(r: RecvState, sent: seq<Message>, delivered: seq<nat>, id: nat)
    requires RecvInv(r, sent, delivered) && id in r.slices && id < |sent|
    requires r.slices[id].numSlices * SLICE_SIZE <= r.memoryUsage && RecvInv(Release(r, id), sent, delivered)
    requires ProcessMessage(Release(r, id), sent[id], id).error.None?
    ensures var o := ProcessMessage(Release(r, id), sent[id], id);
      RecvInv(o.state, sent, delivered) && Grows(r, o.state) && Accepted(o.state, id)
  {
    hide ProcessMessage, MemoryExact, Ledger, Faithful;
    ProcessMessageInv(Release(r, id), sent, delivered, id);
    ProcessMessageLedger(Release(r, id), sent[id], id, delivered);
  }

  /** Completing a sliced message never fails for lack of memory. */
  lemma FinishInv(r: RecvState, sent: seq<Message>, delivered: seq<nat>, sl: Slice, c: Constructor)
    requires RecvInv(r, sent, delivered) && GenuineSlice(sent, sl) && sl.messageId in r.slices
    ensures var o := Finish(r.(slices := r.slices[sl.messageId := c]), sl, sent[sl.messageId]);
      && o.error.None?
      && RecvInv(o.state, sent, delivered)
      && Grows(r, o.state)
      && Accepted(o.state, sl.messageId)
  {
    hide ProcessMessage, MemoryExact, Ledger, Partial, Faithful, NumSlices, Release, Finish;
    var id := sl.messageId;
    HeldConstructor(r, sent, id);
    ConstructorSize(r.slices[id], sent[id]);
    ReleaseInv(r, sent, delivered, id);
    assert r.memoryUsage <= r.maxMemory by { WithinLimit(r); }
    FinishIsRelease(r, sl, c, sent[id]);
    ReleasedInv(r, sent, delivered, id);
  }

  /** The slice goes to the constructor of its message in `r1`, which is `r` after reserving memory. */
  lemma ProcessReserved(r: RecvState, r1: RecvState, sent: seq<Message>, delivered: seq<nat>, sl: Slice)
    requires RecvInv(r1, sent, delivered) && GenuineSlice(sent, sl) && Grows(r, r1) && sl.messageId in r1.slices
    requires !(sl.messageId in r.messages || sl.messageId < r.oldest) && Reserve(r, sl) == Some(r1)
    ensures var o := ProcessSlice(r, sl);
      && RecvInv(o.state, sent, delivered)
      && Grows(r, o.state)
      && o.error.None? && GotSlice(o.state, sl.messageId, sl.sliceIndex)
  {
    hide MemoryExact, Ledger, Faithful, Process, Accepted, Reserve;
    var id, i := sl.messageId, sl.sliceIndex;
    var c := r1.slices[id];
    HeldConstructor(r1, sent, id);
    ProcessGenuine(c, sent[id], i);
    var o := Process(c, i, sl.payload);
    if o.result == Incomplete {
      AdvanceInv(r1, sent, delivered, id, o.constructor_);
    } else {
      FinishInv(r1, sent, delivered, sl, o.constructor_);
    }
  }

  /** Any slice the peer sent: no error but a failed reservation, and afterwards the slice is held. */
  lemma ProcessSliceInv(r: RecvState, sent: seq<Message>, delivered: seq<nat>, sl: Slice)
    requires RecvInv(r, sent, delivered) && GenuineSlice(sent, sl)
    ensures var o := ProcessSlice(r, sl);
      && RecvInv(o.state, sent, delivered)
      && Grows(r, o.state)
      && (o.error.None? ==> GotSlice(o.state, sl.messageId, sl.sliceIndex))
      && (o.error.None? || o.error == Some(MaxMemoryReached))
      && (o.error.Some? ==> sl.messageId !in r.messages && r.oldest <= sl.messageId && Reserve(r, sl).None?)
  {
    hide MemoryExact, Ledger, Faithful, Process, Accepted;
    var id := sl.messageId;
    if !(id in r.messages || id < r.oldest) {
      ReserveInv(r, sent, delivered, sl);
      if Reserve(r, sl).Some? {
        ProcessReserved(r, Reserve(r, sl).value, sent, delivered, sl);
      }
    } else {
      GotAlready(r, delivered, sl);
    }
  }

  // ---------------------------------------------------------------- receive_message

  lemma {:induction false} CatchUpKeepsAccepted(oldest: nat, received: set<nat>, id: nat)
    requires forall k :: k in received ==> oldest <= k
    ensures var (o, rec) := CatchUp(oldest, received);
      && (id < o || id in rec <==> id < oldest || id in received)
      && (id in rec ==> o <= id)
      && o !in rec && oldest <= o
    decreases |received|
  {
    if oldest in received {
      CatchUpKeepsAccepted(oldest + 1, received - {oldest}, id);
    }
  }

  lemma ReceiveMemory(r: RecvState)
    requires MemoryExact(r)
    ensures NextId(r).Some? ==> |r.messages[NextId(r).value]| <= r.memoryUsage
    ensures MemoryExact(Receive(r).state)
  {
    if NextId(r).Some? {
      MessageBytesRemove(r.messages, NextId(r).value);
    }
  }

  lemma ReceiveAccepted(r: RecvState, delivered: seq<nat>, id: nat)
    requires MemoryExact(r) && Ledger(r, delivered) && NextId(r).Some?
    requires |r.messages[NextId(r).value]| <= r.memoryUsage
    ensures Accepted(Receive(r).state, id) <==> Accepted(r, id)
    ensures var r' := Receive(r).state; r'.order.Unordered? ==>
      && (id in r'.order.received ==> r'.oldest <= id)
      && (r'.oldest in r'.order.received ==> r'.oldest in r'.messages)
  {
    if r.order.Unordered? {
      CatchUpKeepsAccepted(r.oldest, r.order.received, id);
    }
  }

  lemma ReceiveLedger(r: RecvState, delivered: seq<nat>)
    requires MemoryExact(r) && Ledger(r, delivered) && NextId(r).Some?
    requires |r.messages[NextId(r).value]| <= r.memoryUsage
    ensures Ledger(Receive(r).state, delivered + [NextId(r).value])
    ensures Grows(r, Receive(r).state)
  {
    var next := NextId(r).value;
    var r' := Receive(r).state;
    var d := delivered + [next];
    forall id
      ensures Accepted(r', id) <==> Accepted(r, id)
      ensures id in d <==> id in delivered || id == next
      ensures r'.order.Unordered? && id in r'.order.received ==> r'.oldest <= id
      ensures r'.order.Unordered? && r'.oldest in r'.order.received ==> r'.oldest in r'.messages
    {
      ReceiveAccepted(r, delivered, id);
    }
    assert next !in delivered;
    assert r'.messages == r.messages - {next};
  }

  /** A message handed out is the next id's, unchanged, and no id is handed out twice. */
  lemma ReceiveInv(r: RecvState, sent: seq<Message>, delivered: seq<nat>)
    requires RecvInv(r, sent, delivered)
    ensures NextId(r).Some? ==> |r.messages[NextId(r).value]| <= r.memoryUsage
    ensures Receive(r).message.Some? <==> NextId(r).Some?
    ensures NextId(r).Some? ==>
      var id := NextId(r).value;
      && id < |sent| && Receive(r).message == Some(sent[id])
      && RecvInv(Receive(r).state, sent, delivered + [id])
    ensures NextId(r).None? ==> Receive(r).state == r
    ensures Grows(r, Receive(r).state)
  {
    ReceiveMemory(r);
    if NextId(r).Some? {
      ReceiveLedger(r, delivered);
      hide Ledger, MemoryExact, CatchUp;
      assert Receive(r).state.slices == r.slices;
    }
  }
}
