/**
 A slice that arrives late on an unordered channel can open its message again
 (renet/src/channel/reliable.rs, `process_slice`). Once `oldest_pending_message_id` has
 passed that message nothing completes or frees it, and its memory stays reserved.
 */
module LateSlices {
  import opened Common
  import opened Slicing
  import opened Wire
  import opened ReliableReceive

  /** A constructor for a message the channel has already taken in. */
  ghost predicate Reopened(r: RecvState, id: nat) {
    Accepted(r, id) && id in r.slices
  }

  lemma FreshTakesOne(m: Message, i: nat)
    requires |m| > SLICE_SIZE && i < NumSlices(|m|)
    ensures Process(Fresh(NumSlices(|m|)), i, SliceOf(m, i)).result == Incomplete
  {
    var n := NumSlices(|m|);
    FreshIsPartial(m);
    ProcessGenuine(Fresh(n), m, i);
    var received := Fresh(n).received[i := true];
    var other := if i == 0 then 1 else 0;
    assert !received[other];
  }

  /**
   A slice opens its message again exactly if the channel is unordered, has taken the
   message in and handed it out while an earlier one is missing, and has memory for it.
   */
  lemma ReopensIff(r: RecvState, sent: seq<Message>, delivered: seq<nat>, sl: Slice)
    requires RecvInv(r, sent, delivered) && GenuineSlice(sent, sl) && sl.messageId !in r.slices
    ensures var id := sl.messageId;
      Accepted(r, id) && Reopened(ProcessSlice(r, sl).state, id) <==>
        && r.order.Unordered? && id in r.order.received && id !in r.messages
        && r.memoryUsage + sl.numSlices * SLICE_SIZE <= r.maxMemory
  {
    var id := sl.messageId;
    FreshTakesOne(sent[id], sl.sliceIndex);
    hide Process, MemoryExact, Faithful;
  }

  // ---------------------------------------------------------------- for good

  /** A constructor whose message no slice can reach any more. */
  ghost predicate Stranded(r: RecvState, id: nat) {
    id < r.oldest && id in r.slices
  }

  /** What a connection does with a receiving channel. */
  datatype Use = Entry(message: Message, id: nat) | Piece(slice: Slice) | Take

  ghost function Apply(r: RecvState, u: Use): (r': RecvState)
    requires MemoryExact(r)
  {
    match u
    case Entry(m, id) => ProcessMessage(r, m, id).state
    case Piece(sl) => ProcessSlice(r, sl).state
    case Take => ReceiveMemory(r); Receive(r).state
  }

  lemma {:induction false} CatchUpRises(oldest: nat, received: set<nat>)
    ensures oldest <= CatchUp(oldest, received).0
    decreases |received|
  {
    if oldest in received {
      CatchUpRises(oldest + 1, received - {oldest});
    }
  }

  lemma EntryStays(r: RecvState, m: Message, k: nat, id: nat)
    requires Stranded(r, id)
    ensures var r' := ProcessMessage(r, m, k).state; Stranded(r', id) && r'.slices[id] == r.slices[id]
  {
  }

  lemma PieceStays(r: RecvState, sl: Slice, id: nat)
    requires Stranded(r, id)
    ensures var r' := ProcessSlice(r, sl).state; Stranded(r', id) && r'.slices[id] == r.slices[id]
  {
    hide Process;
  }

  lemma TakeStays(r: RecvState, id: nat)
    requires Stranded(r, id) && (NextId(r).Some? ==> |r.messages[NextId(r).value]| <= r.memoryUsage)
    ensures var r' := Receive(r).state; Stranded(r', id) && r'.slices[id] == r.slices[id]
  {
    hide CatchUp;
    if r.order.Unordered? {
      CatchUpRises(r.oldest, r.order.received);
    }
  }

  /** Whatever the channel is used for, it stays, with the memory reserved for it. */
  lemma StrandedStays(r: RecvState, u: Use, id: nat)
    requires MemoryExact(r) && Stranded(r, id)
    ensures Stranded(Apply(r, u), id) && Apply(r, u).slices[id] == r.slices[id]
  {
    hide MemoryExact, ProcessMessage, ProcessSlice, Receive, NextId, Stranded;
    assert id in r.slices by { StrandedIs(r, id); }
    match u {
      case Entry(m, k) => EntryStays(r, m, k, id);
      case Piece(sl) => PieceStays(r, sl, id);
      case Take =>
        ReceiveMemory(r);
        TakeStays(r, id);
    }
  }

  lemma StrandedIs(r: RecvState, id: nat)
    requires Stranded(r, id)
    ensures id in r.slices
  {
  }

  /** The states of a channel under a sequence of uses. */
  ghost predicate Uses(states: seq<RecvState>, us: seq<Use>) {
    && |states| == |us| + 1
    && forall i :: 0 <= i < |us| ==> MemoryExact(states[i]) && states[i + 1] == Apply(states[i], us[i])
  }

  lemma {:induction false} StrandedForever(states: seq<RecvState>, us: seq<Use>, id: nat)
    requires Uses(states, us) && Stranded(states[0], id)
    ensures Stranded(states[|us|], id) && states[|us|].slices[id] == states[0].slices[id]
    decreases |us|
  {
    hide MemoryExact, Apply;
    if us != [] {
      var n := |us| - 1;
      StrandedForever(states[..n + 1], us[..n], id);
      StrandedStays(states[n], us[n], id);
    }
  }

  // ---------------------------------------------------------------- a run in which it happens

  /** Slice `i` of `m`, which is message 1. */
  function PieceOf(m: Message, i: nat): Slice
    requires NumSlices(|m|) == 2 && i < 2
  {
    Slice(1, i, 2, SliceOf(m, i))
  }

  /** A channel that is new, or has handed out message 1 and misses message 0. */
  predicate Missing(r: RecvState, mostRecent: nat, received: set<nat>, maxMemory: nat) {
    r == RecvState(map[], map[], 0, Unordered(mostRecent, received), 0, maxMemory)
  }

  /** The first slice reserves memory, also if the message was handed out before. */
  lemma FirstPiece(r: RecvState, m: Message, mostRecent: nat, received: set<nat>, maxMemory: nat)
    requires Missing(r, mostRecent, received, maxMemory) && NumSlices(|m|) == 2 && 2 * SLICE_SIZE <= maxMemory
    ensures var r' := ProcessSlice(r, PieceOf(m, 0)).state;
      && r'.slices.Keys == {1} && Partial(r'.slices[1], m) && r'.slices[1].received == [true, false]
      && r' == r.(slices := r'.slices, memoryUsage := 2 * SLICE_SIZE)
  {
    FreshIsPartial(m);
    ProcessGenuine(Fresh(2), m, 0);
    FreshTakesOne(m, 0);
    hide Process, Partial, SliceOf, ProcessMessage;
    assert Fresh(2).received[0 := true] == [true, false];
  }

  lemma SecondPiece(r: RecvState, c: Constructor, m: Message, maxMemory: nat)
    requires NumSlices(|m|) == 2 && 2 * SLICE_SIZE <= maxMemory && Partial(c, m) && c.received == [true, false]
    requires r == RecvState(map[1 := c], map[], 0, Unordered(0, {}), 2 * SLICE_SIZE, maxMemory)
    ensures ProcessSlice(r, PieceOf(m, 1)).state == RecvState(map[], map[1 := m], 0, Unordered(1, {1}), |m|, maxMemory)
  {
    ProcessGenuine(c, m, 1);
    assert c.received[1 := true] == [true, true];
    assert |m| <= 2 * SLICE_SIZE;
    hide Process, Partial, SliceOf;
    var done := Process(c, 1, SliceOf(m, 1)).constructor_;
    var full := RecvState(map[1 := done], map[], 0, Unordered(0, {}), 2 * SLICE_SIZE, maxMemory);
    assert map[1 := c][1 := done] == map[1 := done] && map[1 := done] - {1} == map[];
    assert ProcessSlice(r, PieceOf(m, 1)) == Finish(full, PieceOf(m, 1), m);
    var none: set<nat> := {};
    assert none + {1} == {1};
  }

  lemma TakeOne(r: RecvState, m: Message, maxMemory: nat)
    requires r == RecvState(map[], map[1 := m], 0, Unordered(1, {1}), |m|, maxMemory)
    ensures NextId(r) == Some(1) && Missing(Receive(r).state, 1, {1}, maxMemory) && Receive(r).message == Some(m)
  {
    assert r.messages.Keys == {1};
    hide CatchUp;
  }

  lemma TakeZero(r: RecvState, m: Message)
    requires r.order == Unordered(1, {0, 1}) && r.messages == map[0 := m] && r.oldest == 0 && |m| <= r.memoryUsage
    ensures NextId(r) == Some(0) && Receive(r).state.oldest == 2 && Receive(r).state.slices == r.slices
  {
    assert r.messages.Keys == {0};
    var received := {0, 1};
    assert received - {0} == {1};
    assert received - {0} - {1} == {};
    assert CatchUp(2, received - {0} - {1}) == (2, {});
    assert CatchUp(1, received - {0}) == (2, {});
  }

  /**
   Message 1 arrives in two slices and is handed out; its first slice arrives once more;
   then message 0 arrives and is handed out. The memory for two slices stays reserved.
   */
  lemma LateSliceStrands(m0: Message, m1: Message, maxMemory: nat)
    requires NumSlices(|m1|) == 2 && 2 * SLICE_SIZE + |m0| <= maxMemory
    ensures var r2 := ProcessSlice(ProcessSlice(New(maxMemory, false), PieceOf(m1, 0)).state, PieceOf(m1, 1)).state;
      && NextId(r2) == Some(1) && |r2.messages[1]| <= r2.memoryUsage
      && var r4 := ProcessSlice(Receive(r2).state, PieceOf(m1, 0)).state;
        && Reopened(r4, 1)
        && var r5 := ProcessMessage(r4, m0, 0).state;
          && NextId(r5) == Some(0) && |r5.messages[0]| <= r5.memoryUsage
          && Stranded(Receive(r5).state, 1)
  {
    hide ProcessSlice, Receive, CatchUp, Partial;
    var r0 := New(maxMemory, false);
    FirstPiece(r0, m1, 0, {}, maxMemory);
    var r1 := ProcessSlice(r0, PieceOf(m1, 0)).state;
    assert r1.slices == map[1 := r1.slices[1]];
    SecondPiece(r1, r1.slices[1], m1, maxMemory);
    var r2 := ProcessSlice(r1, PieceOf(m1, 1)).state;
    TakeOne(r2, m1, maxMemory);
    var r3 := Receive(r2).state;
    FirstPiece(r3, m1, 1, {1}, maxMemory);
    var r4 := ProcessSlice(r3, PieceOf(m1, 0)).state;
    var r5 := ProcessMessage(r4, m0, 0).state;
    assert {1} + {0} == {0, 1};
    TakeZero(r5, m0);
  }
}
