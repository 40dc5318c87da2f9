/** The unreliable channels (renet/src/channel/unreliable.rs) as the objects they are, proved against `Unreliable`. */
module UnreliableChannel {
  import opened Common
  import opened Slicing
  import opened Wire
  import opened ReliableReceive
  import opened Unreliable

  // ---------------------------------------------------------------- sending

  class SendChannelUnreliable {
    const channelId: byte
    var unreliableMessages: seq<Message>
    var slicedMessageId: nat
    const maxMemoryUsageBytes: nat
    var memoryUsageBytes: nat

    ghost function Model(): USend
      reads this
    {
      USend(channelId, unreliableMessages, slicedMessageId, maxMemoryUsageBytes, memoryUsageBytes)
    }

    ghost predicate Valid()
      reads this
    {
      WfUSend(Model())
    }

    constructor (channelId: byte, maxMemoryUsageBytes: nat)
      ensures Valid() && Model() == NewSend(channelId, maxMemoryUsageBytes)
    {
      this.channelId := channelId;
      unreliableMessages := [];
      slicedMessageId := 0;
      this.maxMemoryUsageBytes := maxMemoryUsageBytes;
      memoryUsageBytes := 0;
    }

    method SendMessage(message: Message)
      requires Valid()
      modifies this`memoryUsageBytes, this`unreliableMessages
      ensures Valid() && Model() == Enqueue(old(Model()), message)
    {
      QueueBytesAppend(unreliableMessages, message);
      if memoryUsageBytes + |message| > maxMemoryUsageBytes {
        return;
      }
      memoryUsageBytes := memoryUsageBytes + |message|;
      unreliableMessages := unreliableMessages + [message];
    }

    /** All slices of `message`, which has number `slicedMessageId`, in order. */
    method CutUp(message: Message, before: seq<Packet>, sequence0: nat, ghost b: UBatch)
      returns (packets: seq<Packet>, sequence: nat)
      requires b.packets == before && b.sequence == sequence0
      ensures b.(packets := packets, sequence := sequence) ==
              USlices(b, channelId, slicedMessageId, message, NumSlices(|message|))
    {
      packets, sequence := before, sequence0;
      var numSlices := NumSlices(|message|);
      for sliceIndex := 0 to numSlices
        invariant b.(packets := packets, sequence := sequence) ==
                  USlices(b, channelId, slicedMessageId, message, sliceIndex)
      {
        var slice := Slice(slicedMessageId, sliceIndex, numSlices, SliceOf(message, sliceIndex));
        packets := packets + [UnreliableSlice(sequence, channelId, slice)];
        sequence := sequence + 1;
      }
    }

    /** Adds a small message to the packet under construction, which is sent first if the message does not fit. */
    method Collect(
      message: Message, packets0: seq<Packet>, sequence0: nat, small0: seq<Message>, smallBytes0: nat, ghost b: UBatch)
      returns (packets: seq<Packet>, sequence: nat, small: seq<Message>, smallBytes: nat)
      requires b == UBatch(packets0, sequence0, b.available, small0, smallBytes0, b.sliced)
      ensures UBatch(packets, sequence, b.available, small, smallBytes, b.sliced) == UCollect(b, channelId, message)
    {
      packets, sequence, small, smallBytes := packets0, sequence0, small0, smallBytes0;
      var serializedSize := |message| + VarintLen(|message|);
      if smallBytes + serializedSize > SLICE_SIZE {
        packets := packets + [SmallUnreliable(sequence, channelId, small)];
        sequence := sequence + 1;
        small, smallBytes := [], 0;
      }
      smallBytes := smallBytes + serializedSize;
      small := small + [message];
    }

    method GetPacketsToSend(sequence0: nat, available0: nat)
      returns (packets: seq<Packet>, sequence: nat, available: nat)
      requires Valid()
      modifies this`unreliableMessages, this`memoryUsageBytes, this`slicedMessageId
      ensures Valid() && unreliableMessages == [] && memoryUsageBytes == 0
      ensures var t := UGetPackets(old(Model()), sequence0, available0);
        t == UTick(Model(), packets, sequence, available, t.sliced)
    {
      hide WfUSend, USlices, UCollect;
      ghost var s := Model();
      MemoryIsQueue(s);
      UTickIsSound(s, sequence0, available0);
      packets, sequence, available := [], sequence0, available0;
      var small: seq<Message>, smallBytes: nat := [], 0;
      ghost var sliced: seq<Message>, k: nat := [], 0;
      while unreliableMessages != []
        invariant k <= |s.queue| && unreliableMessages == s.queue[k..]
        invariant memoryUsageBytes == QueueBytes(unreliableMessages)
        invariant slicedMessageId == s.slicedId + |sliced|
        invariant UBatch(packets, sequence, available, small, smallBytes, sliced) == UScan(s, sequence0, available0, k)
        decreases |unreliableMessages|
      {
        var message := unreliableMessages[0];
        QueueBytesTail(unreliableMessages);
        unreliableMessages := unreliableMessages[1..];
        memoryUsageBytes := memoryUsageBytes - |message|;
        k := k + 1;
        if available < |message| {
          continue;
        }
        available := available - |message|;
        if |message| > SLICE_SIZE {
          packets, sequence :=
            CutUp(message, packets, sequence, UBatch(packets, sequence, available, small, smallBytes, sliced));
          sliced := sliced + [message];
          slicedMessageId := slicedMessageId + 1;
        } else {
          packets, sequence, small, smallBytes :=
            Collect(message, packets, sequence, small, smallBytes,
                    UBatch(packets, sequence, available, small, smallBytes, sliced));
        }
      }
      if small != [] {
        packets := packets + [SmallUnreliable(sequence, channelId, small)];
        sequence := sequence + 1;
      }
    }
  }

  lemma MemoryIsQueue(s: USend)
    requires WfUSend(s)
    ensures s.memoryUsage == QueueBytes(s.queue)
  {
  }

  // ---------------------------------------------------------------- receiving

  class ReceiveChannelUnreliable {
    var messages: seq<Message>
    var slices: map<nat, SliceConstructor>
    var slicesLastReceived: map<nat, Time>
    const maxMemoryUsageBytes: nat
    var memoryUsageBytes: nat

    ghost function SliceModels(): map<nat, Constructor>
      reads this, slices.Values
    {
      map id | id in slices :: slices[id].Model()
    }

    ghost function Model(): URecv
      reads this, slices.Values
    {
      URecv(messages, SliceModels(), slicesLastReceived, maxMemoryUsageBytes, memoryUsageBytes)
    }

    /** No two messages share a constructor, and every receive time belongs to one. */
    ghost predicate Valid()
      reads this
    {
      && (forall i, j :: i in slices && j in slices && i != j ==> slices[i] != slices[j])
      && slicesLastReceived.Keys <= slices.Keys
    }

    constructor (maxMemoryUsageBytes: nat)
      ensures Valid() && Model() == NewRecv(maxMemoryUsageBytes)
    {
      messages := [];
      slices := map[];
      slicesLastReceived := map[];
      this.maxMemoryUsageBytes := maxMemoryUsageBytes;
      memoryUsageBytes := 0;
    }

    method ProcessMessage(message: Message)
      modifies this`messages, this`memoryUsageBytes
      ensures Model() == UProcessMessage(old(Model()), message)
    {
      if memoryUsageBytes + |message| > maxMemoryUsageBytes {
        return;
      }
      memoryUsageBytes := memoryUsageBytes + |message|;
      messages := messages + [message];
    }

    method ReserveFor(slice: Slice) returns (ok: bool)
      requires Valid()
      modifies this`slices, this`memoryUsageBytes
      ensures Valid() && ok == UReserve(old(Model()), slice).Some?
      ensures ok ==> slice.messageId in slices && Model() == UReserve(old(Model()), slice).value
      ensures !ok ==> Model() == old(Model())
      ensures forall c :: c in slices.Values ==> c in old(slices.Values) || fresh(c)
    {
      if slice.messageId in slices {
        return true;
      }
      var messageLen := slice.numSlices * SLICE_SIZE;
      if memoryUsageBytes + messageLen > maxMemoryUsageBytes {
        return false;
      }
      memoryUsageBytes := memoryUsageBytes + messageLen;
      var constructor_ := new SliceConstructor(slice.numSlices);
      slices := slices[slice.messageId := constructor_];
      return true;
    }

    method Advance(slice: Slice) returns (r: SliceResult)
      requires Valid() && slice.messageId in slices
      modifies slices[slice.messageId]
      ensures var o := Process(old(slices[slice.messageId].Model()), slice.sliceIndex, slice.payload);
        r == o.result && SliceModels() == old(SliceModels())[slice.messageId := o.constructor_]
    {
      hide Process;
      r := slices[slice.messageId].ProcessSlice(slice.sliceIndex, slice.payload);
    }

    method FinishMessage(slice: Slice, message: Message) returns (error: Option<RecvError>)
      requires Valid()
      modifies this
      ensures Valid() && UOutcome(Model(), error) == UFinish(old(Model()), slice, message)
    {
      if memoryUsageBytes < slice.numSlices * SLICE_SIZE {
        return Some(RecvPanic);
      }
      slices := slices - {slice.messageId};
      slicesLastReceived := slicesLastReceived - {slice.messageId};
      memoryUsageBytes := memoryUsageBytes - slice.numSlices * SLICE_SIZE;
      memoryUsageBytes := memoryUsageBytes + |message|;
      messages := messages + [message];
      assert SliceModels() == old(SliceModels()) - {slice.messageId};
      return None;
    }

    method ProcessSlice(slice: Slice, now: Time) returns (error: Option<RecvError>)
      requires Valid()
      modifies this, slices.Values
      ensures Valid() && UOutcome(Model(), error) == UProcessSlice(old(Model()), slice, now)
    {
      hide Process, UFinish, UReserve;
      var reserved := ReserveFor(slice);
      if !reserved {
        return None;
      }
      error := ProcessReserved(slice, now);
    }

    /** The message of the slice has a constructor. */
    method ProcessReserved(slice: Slice, now: Time) returns (error: Option<RecvError>)
      requires Valid() && slice.messageId in slices
      modifies this, slices[slice.messageId]
      ensures Valid() && UOutcome(Model(), error) == Absorb(old(Model()), slice, now)
    {
      hide Process, UFinish;
      ghost var r1 := Model();
      var result := Advance(slice);
      ghost var r2 := Model();
      assert r2 == r1.(slices := r2.slices);
      match result {
        case Incomplete =>
          slicesLastReceived := slicesLastReceived[slice.messageId := now];
          return None;
        case InvalidSlice => return Some(InvalidSliceMessage);
        case Complete(message) =>
          error := FinishMessage(slice, message);
        case SlicePanic => return Some(RecvPanic);
      }
    }

    /** The ids that the scan in id order finds stale before the first one that is not. */
    method FindLost(now: Time) returns (lost: seq<nat>)
      requires Valid()
      ensures Elements(lost) == Lost(slicesLastReceived, now, slicesLastReceived.Keys)
      ensures Distinct(lost)
      ensures forall id :: id in lost ==> id in slicesLastReceived
    {
      hide Distinct, Elements;
      lost := [];
      NothingYet();
      var keys := slicesLastReceived.Keys;
      while keys != {}
        invariant keys <= slicesLastReceived.Keys
        invariant forall id :: id in lost ==> id !in keys && id in slicesLastReceived
        invariant Distinct(lost)
        invariant Elements(lost) + Lost(slicesLastReceived, now, keys) ==
                  Lost(slicesLastReceived, now, slicesLastReceived.Keys)
        decreases |keys|
      {
        var id := First(keys);
        if now - slicesLastReceived[id] >= DISCARD_AFTER {
          ElementsAppend(lost, id);
          DistinctAppend(lost, id);
          lost := lost + [id];
        } else {
          break;
        }
        keys := keys - {id};
      }
    }

    /** Gives up one reassembly and its memory. */
    method Drop(id: nat)
      requires Valid() && id in slices && SliceBytes(SliceModels()) <= memoryUsageBytes
      modifies this`slices, this`slicesLastReceived, this`memoryUsageBytes
      ensures Valid() && slices == old(slices) - {id} && slicesLastReceived == old(slicesLastReceived) - {id}
      ensures SliceModels() == old(SliceModels()) - {id}
      ensures old(memoryUsageBytes) - memoryUsageBytes == SliceBytes(old(SliceModels())) - SliceBytes(SliceModels())
    {
      hide SliceBytes;
      SliceBytesRemove(SliceModels(), id);
      slicesLastReceived := slicesLastReceived - {id};
      memoryUsageBytes := memoryUsageBytes - slices[id].numSlices * SLICE_SIZE;
      slices := slices - {id};
      assert SliceModels() == old(SliceModels()) - {id};
    }

    method DiscardIncompleteOldSlices(now: Time)
      requires Valid() && SliceBytes(SliceModels()) <= memoryUsageBytes
      modifies this`slices, this`slicesLastReceived, this`memoryUsageBytes
      ensures Valid() && Model() == Discard(old(Model()), now)
    {
      hide Lost, SliceBytes, Distinct, Dropped;
      ghost var r := Model();
      var lost := FindLost(now);
      DroppedNone(lost);
      for k := 0 to |lost|
        invariant Valid()
        invariant forall id :: id in lost[k..] ==> id in slices && id in slicesLastReceived
        invariant SliceModels() == r.slices - Dropped(lost, k)
        invariant slicesLastReceived == r.lastReceived - Dropped(lost, k)
        invariant r.memoryUsage - memoryUsageBytes == SliceBytes(r.slices) - SliceBytes(SliceModels())
      {
        LaterDiffers(lost, k);
        assert lost[k] in lost[k..];
        DroppedStep(r.slices, lost, k);
        DroppedStep(r.lastReceived, lost, k);
        Drop(lost[k]);
      }
      DroppedAll(lost);
    }

    method ReceiveMessage() returns (message: Option<Message>)
      requires messages != [] ==> |messages[0]| <= memoryUsageBytes
      modifies this`messages, this`memoryUsageBytes
      ensures (Model(), message) == UReceive(old(Model()))
    {
      if messages != [] {
        var m := messages[0];
        messages := messages[1..];
        memoryUsageBytes := memoryUsageBytes - |m|;
        assert SliceModels() == old(SliceModels());
        return Some(m);
      }
      return None;
    }
  }

  lemma NothingYet()
    ensures Elements([]) == {} && Distinct([])
  {
  }

  lemma ElementsAppend(s: seq<nat>, x: nat)
    ensures Elements(s + [x]) == Elements(s) + {x}
  {
  }

  lemma DistinctAppend(s: seq<nat>, x: nat)
    requires Distinct(s) && x !in s
    ensures Distinct(s + [x])
  {
  }

  lemma LaterDiffers(lost: seq<nat>, k: nat)
    requires Distinct(lost) && k < |lost|
    ensures forall id :: id in lost[k + 1..] ==> id != lost[k] && id in lost[k..]
  {
  }
}
