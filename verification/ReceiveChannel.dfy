/** `ReceiveChannelReliable` (renet/src/channel/reliable.rs) as the object it is, proved against `ReliableReceive`. */
module ReceiveChannel {
  import opened Common
  import opened Slicing
  import opened Wire
  import opened ReliableReceive

  class ReceiveChannelReliable {
    var slices: map<nat, SliceConstructor>
    var messages: map<nat, Message>
    var oldestPendingMessageId: nat
    var reliableOrder: Order
    var memoryUsageBytes: nat
    const maxMemoryUsageBytes: nat

    ghost function SliceModels(): map<nat, Constructor>
      reads this, slices.Values
    {
      map id | id in slices :: slices[id].Model()
    }

    ghost function Model(): RecvState
      reads this, slices.Values
    {
      RecvState(SliceModels(), messages, oldestPendingMessageId, reliableOrder, memoryUsageBytes, maxMemoryUsageBytes)
    }

    /** No two messages share a constructor. */
    ghost predicate Valid()
      reads this
    {
      forall i, j :: i in slices && j in slices && i != j ==> slices[i] != slices[j]
    }

    constructor (maxMemoryUsageBytes: nat, ordered: bool)
      ensures Valid() && Model() == New(maxMemoryUsageBytes, ordered)
    {
      slices := map[];
      messages := map[];
      oldestPendingMessageId := 0;
      reliableOrder := if ordered then Ordered else Unordered(0, {});
      memoryUsageBytes := 0;
      this.maxMemoryUsageBytes := maxMemoryUsageBytes;
    }

    method ProcessMessage(message: Message, id: nat) returns (error: Option<RecvError>)
      modifies this`messages, this`reliableOrder, this`memoryUsageBytes
      ensures RecvOutcome(Model(), error) == ReliableReceive.ProcessMessage(old(Model()), message, id)
    {
      if id < oldestPendingMessageId {
        return None;
      }
      match reliableOrder {
        case Ordered =>
          if id !in messages {
            if memoryUsageBytes + |message| > maxMemoryUsageBytes {
              return Some(MaxMemoryReached);
            }
            memoryUsageBytes := memoryUsageBytes + |message|;
            messages := messages[id := message];
          }
        case Unordered(mostRecent, received) =>
          if mostRecent < id {
            mostRecent := id;
          }
          reliableOrder := Unordered(mostRecent, received);
          if id !in received {
            if memoryUsageBytes + |message| > maxMemoryUsageBytes {
              return Some(MaxMemoryReached);
            }
            memoryUsageBytes := memoryUsageBytes + |message|;
            reliableOrder := Unordered(mostRecent, received + {id});
            messages := messages[id := message];
          }
      }
      return None;
    }

    /** Memory is reserved for a new message, unless there is not enough. */
    method ReserveFor(slice: Slice) returns (ok: bool)
      requires Valid()
      modifies this`slices, this`memoryUsageBytes
      ensures Valid() && ok == Reserve(old(Model()), slice).Some?
      ensures ok ==> slice.messageId in slices && Model() == Reserve(old(Model()), slice).value
      ensures !ok ==> Model() == old(Model())
      ensures forall c :: c in slices.Values ==> c in old(slices.Values) || fresh(c)
    {
      if slice.messageId in slices {
        return true;
      }
      var messageLen := slice.numSlices * SLICE_SIZE;
      if memoryUsageBytes + messageLen > maxMemoryUsageBytes {
        return false;
      }
      memoryUsageBytes := memoryUsageBytes + messageLen;
      var constructor_ := new SliceConstructor(slice.numSlices);
      slices := slices[slice.messageId := constructor_];
      return true;
    }

    /** The slice is added to the constructor of its message. */
    method Advance(slice: Slice) returns (r: SliceResult)
      requires Valid() && slice.messageId in slices
      modifies slices[slice.messageId]
      ensures var o := Process(old(slices[slice.messageId].Model()), slice.sliceIndex, slice.payload);
        r == o.result && SliceModels() == old(SliceModels())[slice.messageId := o.constructor_]
    {
      hide Process;
      r := slices[slice.messageId].ProcessSlice(slice.sliceIndex, slice.payload);
    }

    /** The reserved memory is replaced by the exact size of the assembled message. */
    method FinishMessage(slice: Slice, message: Message) returns (error: Option<RecvError>)
      requires Valid()
      modifies this
      ensures Valid() && RecvOutcome(Model(), error) == Finish(old(Model()), slice, message)
    {
      hide ReliableReceive.ProcessMessage;
      ghost var r := Model();
      if memoryUsageBytes < slice.numSlices * SLICE_SIZE {
        return Some(RecvPanic);
      }
      memoryUsageBytes := memoryUsageBytes - slice.numSlices * SLICE_SIZE;
      assert Model() == r.(memoryUsage := memoryUsageBytes);
      error := ProcessMessage(message, slice.messageId);
      ghost var mid := Model();
      if error.None? {
        slices := slices - {slice.messageId};
        assert SliceModels() == mid.slices - {slice.messageId};
        assert Model() == mid.(slices := SliceModels());
      }
    }

    method ProcessSlice(slice: Slice) returns (error: Option<RecvError>)
      requires Valid()
      modifies this, slices.Values
      ensures Valid()
      ensures RecvOutcome(Model(), error) == ReliableReceive.ProcessSlice(old(Model()), slice)
    {
      hide Process, Finish;
      ghost var r := Model();
      var id := slice.messageId;
      if id in messages || id < oldestPendingMessageId {
        return None;
      }
      var reserved := ReserveFor(slice);
      if !reserved {
        return Some(MaxMemoryReached);
      }
      var result := Advance(slice);
      match result {
        case Incomplete => return None;
        case InvalidSlice => return Some(InvalidSliceMessage);
        case Complete(message) =>
          error := FinishMessage(slice, message);
        case SlicePanic => return Some(RecvPanic);
      }
    }

    /** `received_messages` without the ids that directly follow, and the id after them. */
    method MoveOldest(received: set<nat>) returns (rest: set<nat>)
      modifies this`oldestPendingMessageId
      ensures (oldestPendingMessageId, rest) == CatchUp(old(oldestPendingMessageId), received)
    {
      rest := received;
      while oldestPendingMessageId in rest
        invariant CatchUp(oldestPendingMessageId, rest) == CatchUp(old(oldestPendingMessageId), received)
        decreases |rest|
      {
        rest := rest - {oldestPendingMessageId};
        oldestPendingMessageId := oldestPendingMessageId + 1;
      }
    }

    method ReceiveMessage() returns (message: Option<Message>)
      requires NextId(Model()).Some? ==> |messages[NextId(Model()).value]| <= memoryUsageBytes
      modifies this`messages, this`oldestPendingMessageId, this`reliableOrder, this`memoryUsageBytes
      ensures Received(Model(), message) == Receive(old(Model()))
    {
      match reliableOrder {
        case Ordered =>
          if oldestPendingMessageId !in messages {
            return None;
          }
          var m := messages[oldestPendingMessageId];
          messages := messages - {oldestPendingMessageId};
          oldestPendingMessageId := oldestPendingMessageId + 1;
          memoryUsageBytes := memoryUsageBytes - |m|;
          return Some(m);
        case Unordered(mostRecent, received) =>
          if messages == map[] {
            return None;
          }
          var id := First(messages.Keys);
          var m := messages[id];
          messages := messages - {id};
          if oldestPendingMessageId == id {
            var rest := MoveOldest(received);
            reliableOrder := Unordered(mostRecent, rest);
          }
          memoryUsageBytes := memoryUsageBytes - |m|;
          return Some(m);
      }
    }
  }
}
