/**
 `SendChannelReliable` (renet/src/channel/reliable.rs) as the object it is, proved against
 `ReliableSend` and `SendScheduling`.
 */
module SendChannel {
  import opened Common
  import opened Slicing
  import opened Wire
  import opened ReliableSend
  import SS = SendScheduling

  /** With no message held there is nothing to scan. */
  lemma {:induction false} ScanNothing(s: SendState, sequence: nat, available: nat, now: Time, k: nat)
    requires s.unacked == map[]
    ensures SS.Scan(s, sequence, available, now, k) == SS.Scanned(SS.Batch([], sequence, available, [], 0), map[])
  {
    if k > 0 {
      ScanNothing(s, sequence, available, now, k - 1);
    }
  }

  /** Once the budget is below a slice, the remaining rounds change nothing. */
  lemma {:induction false} ScanStops(b: SS.Batch, s: SendState, now: Time, id: nat, u: Unacked, j: nat, n: nat)
    requires WfUnacked(u) && u.Sliced? && j <= n <= u.numSlices
    requires SS.SliceScan(b, s, now, id, u, j).batch.available < SLICE_SIZE
    ensures SS.SliceScan(b, s, now, id, u, n) == SS.SliceScan(b, s, now, id, u, j)
  {
    hide SS.Rotated;
    if j < n {
      ScanStops(b, s, now, id, u, j, n - 1);
    }
  }

  /** Messages not visited yet are as they were. */
  lemma {:induction false} ScanLeavesLater(s: SendState, sequence: nat, available: nat, now: Time, k: nat, id: nat)
    requires SS.AllWf(s.unacked) && id in s.unacked && k <= id
    ensures SS.Scan(s, sequence, available, now, k).unacked[id] == s.unacked[id]
  {
    hide SS.VisitMessage;
    if k > 0 {
      ScanLeavesLater(s, sequence, available, now, k - 1, id);
    }
  }

  class SendChannelReliable {
    const channelId: byte
    var unackedMessages: map<nat, Unacked>
    var nextReliableMessageId: nat
    const resendTime: Time
    const maxMemoryUsageBytes: nat
    var memoryUsageBytes: nat

    ghost function Model(): SendState
      reads this
    {
      SendState(channelId, unackedMessages, nextReliableMessageId, resendTime, maxMemoryUsageBytes, memoryUsageBytes)
    }

    ghost predicate Valid()
      reads this
    {
      WfSend(Model())
    }

    constructor (channelId: byte, resendTime: Time, maxMemoryUsageBytes: nat)
      ensures Valid() && Model() == New(channelId, resendTime, maxMemoryUsageBytes)
    {
      this.channelId := channelId;
      unackedMessages := map[];
      nextReliableMessageId := 0;
      this.resendTime := resendTime;
      this.maxMemoryUsageBytes := maxMemoryUsageBytes;
      memoryUsageBytes := 0;
    }

    /** The memory left; the subtraction cannot underflow. */
    method AvailableMemory() returns (available: nat)
      requires Valid()
      ensures memoryUsageBytes + available == maxMemoryUsageBytes
    {
      available := maxMemoryUsageBytes - memoryUsageBytes;
    }

    /** Whether a message of this size would be accepted now. */
    method CanSendMessage(sizeBytes: nat) returns (ok: bool)
      ensures forall m: Message :: |m| == sizeBytes ==> (ok <==> ReliableSend.SendMessage(Model(), m).Some?)
    {
      ok := sizeBytes + memoryUsageBytes <= maxMemoryUsageBytes;
    }

    method SendMessage(message: Message) returns (ok: bool)
      requires Valid()
      modifies this
      ensures Valid()
      ensures ok <==> ReliableSend.SendMessage(old(Model()), message).Some?
      ensures Model() == if ok then ReliableSend.SendMessage(old(Model()), message).value else old(Model())
    {
      SendMessageWf(Model(), message);
      if memoryUsageBytes + |message| > maxMemoryUsageBytes {
        return false;
      }
      memoryUsageBytes := memoryUsageBytes + |message|;
      var unacked: Unacked;
      if |message| > SLICE_SIZE {
        var n := NumSlices(|message|);
        unacked := Sliced(message, n, 0, 0, seq(n, _ => false), seq(n, _ => None));
      } else {
        unacked := Small(message, None);
      }
      unackedMessages := unackedMessages[nextReliableMessageId := unacked];
      nextReliableMessageId := nextReliableMessageId + 1;
      ok := true;
    }

    /** A small message was acknowledged. */
    method ProcessMessageAck(id: nat)
      requires Valid() && (id in unackedMessages ==> unackedMessages[id].Small?)
      modifies this
      ensures Valid() && Acked(Model()) == AckMessage(old(Model()), id)
      ensures unackedMessages == old(unackedMessages) - {id}
    {
      AckMessageWf(Model(), id);
      if id in unackedMessages {
        var payload := unackedMessages[id].message;
        unackedMessages := unackedMessages - {id};
        memoryUsageBytes := memoryUsageBytes - |payload|;
      }
    }

    /** A slice was acknowledged; the message goes with its last one. */
    method ProcessSliceMessageAck(id: nat, sliceIndex: nat)
      requires Valid()
      requires id in unackedMessages ==> unackedMessages[id].Sliced? && sliceIndex < unackedMessages[id].numSlices
      modifies this
      ensures Valid() && Acked(Model()) == AckSlice(old(Model()), id, sliceIndex)
      ensures id !in unackedMessages <==>
        id in old(unackedMessages) ==> AllTrue(old(unackedMessages)[id].acked[sliceIndex := true])
    {
      AckSliceWf(Model(), id, sliceIndex);
      if id !in unackedMessages {
        return;
      }
      var u := unackedMessages[id];
      if u.acked[sliceIndex] {
        return;
      }
      u := u.(acked := u.acked[sliceIndex := true], numAcked := u.numAcked + 1);
      if u.numAcked == u.numSlices {
        memoryUsageBytes := memoryUsageBytes - |u.message|;
        unackedMessages := unackedMessages - {id};
      } else {
        unackedMessages := unackedMessages[id := u];
      }
    }

    /** The rounds over the slices of message `id`, starting where the last tick stopped. */
    method SendSlices(
      id: nat, now: Time, before: seq<Packet>, sequence0: nat, available0: nat,
      ghost small: seq<Entry>, ghost smallBytes: nat)
      returns (u: Unacked, packets: seq<Packet>, sequence: nat, available: nat)
      requires id in unackedMessages && unackedMessages[id].Sliced? && WfUnacked(unackedMessages[id])
      ensures SS.Visit(SS.Batch(packets, sequence, available, small, smallBytes), u) ==
              SS.VisitMessage(SS.Batch(before, sequence0, available0, small, smallBytes), Model(), now, id, unackedMessages[id])
    {
      u, packets, sequence, available := unackedMessages[id], before, sequence0, available0;
      ghost var b0, u0 := SS.Batch(before, sequence0, available0, small, smallBytes), u;
      var startIndex := u.nextSlice;
      for j := 0 to u.numSlices
        invariant SS.Visit(SS.Batch(packets, sequence, available, small, smallBytes), u) ==
                  SS.SliceScan(b0, Model(), now, id, u0, j)
      {
        if available < SLICE_SIZE {
          ScanStops(b0, Model(), now, id, u0, j, u0.numSlices);
          return;
        }
        var i := (startIndex + j) % u.numSlices;
        if !u.acked[i] && SS.Due(u.lastSents[i], now, resendTime) {
          var payload := SliceOf(u.message, i);
          available := available - |payload|;
          packets := packets + [ReliableSlice(sequence, channelId, Slice(id, i, u.numSlices, payload))];
          sequence := sequence + 1;
          u := u.(lastSents := u.lastSents[i := Some(now)], nextSlice := i + 1);
        }
      }
    }

    method GetPacketsToSend(sequence0: nat, available0: nat, now: Time)
      returns (packets: seq<Packet>, sequence: nat, available: nat)
      requires Valid()
      modifies this`unackedMessages
      ensures Valid()
      ensures SS.Tick(Model(), packets, sequence, available) == SS.GetPackets(old(Model()), sequence0, available0, now)
    {
      hide HeldBytes, SS.SliceScan, SS.Rotated, SS.SameMessages, CountTrue;
      SS.GetPacketsWf(Model(), sequence0, available0, now);
      packets, sequence, available := [], sequence0, available0;
      ghost var s := Model();
      if unackedMessages == map[] {
        ScanNothing(s, sequence0, available0, now, s.nextId);
        return;
      }
      var small: seq<Entry>, smallBytes: nat := [], 0;
      for id := 0 to nextReliableMessageId
        invariant SS.Scanned(SS.Batch(packets, sequence, available, small, smallBytes), unackedMessages) ==
                  SS.Scan(s, sequence0, available0, now, id)
        invariant nextReliableMessageId == s.nextId && memoryUsageBytes == s.memoryUsage
      {
        if id in unackedMessages {
          ScanLeavesLater(s, sequence0, available0, now, id, id);
          ghost var b := SS.Batch(packets, sequence, available, small, smallBytes);
          var u := unackedMessages[id];
          assert SS.VisitMessage(b, Model(), now, id, u) == SS.VisitMessage(b, s, now, id, u) by {
            SameConstants(b, Model(), s, now, id, u);
          }
          match u {
            case Small(message, lastSent) =>
              if available < |message| || !SS.Due(lastSent, now, resendTime) {
                continue;
              }
              available := available - |message|;
              var serializedSize := |message| + VarintLen(|message|) + VarintLen(id);
              if smallBytes + serializedSize > SLICE_SIZE {
                packets := packets + [SmallReliable(sequence, channelId, small)];
                small, smallBytes := [], 0;
                sequence := sequence + 1;
              }
              smallBytes := smallBytes + serializedSize;
              small := small + [Entry(id, message)];
              unackedMessages := unackedMessages[id := Small(message, Some(now))];
            case Sliced(_, _, _, _, _, _) =>
              u, packets, sequence, available := SendSlices(id, now, packets, sequence, available, small, smallBytes);
              unackedMessages := unackedMessages[id := u];
          }
        }
      }
      if small != [] {
        packets := packets + [SmallReliable(sequence, channelId, small)];
        sequence := sequence + 1;
      }
    }
  }

  /** Visiting a message depends only on the channel's id and resend time. */
  lemma SameConstants(b: SS.Batch, s: SendState, t: SendState, now: Time, id: nat, u: Unacked)
    requires WfUnacked(u) && s.channelId == t.channelId && s.resendTime == t.resendTime
    ensures SS.VisitMessage(b, s, now, id, u) == SS.VisitMessage(b, t, now, id, u)
  {
    if u.Sliced? {
      SameScan(b, s, t, now, id, u, u.numSlices);
    }
  }

  lemma {:induction false} SameScan(b: SS.Batch, s: SendState, t: SendState, now: Time, id: nat, u: Unacked, j: nat)
    requires WfUnacked(u) && u.Sliced? && j <= u.numSlices && s.channelId == t.channelId && s.resendTime == t.resendTime
    ensures SS.SliceScan(b, s, now, id, u, j) == SS.SliceScan(b, t, now, id, u, j)
  {
    hide SS.Rotated;
    if j > 0 {
      SameScan(b, s, t, now, id, u, j - 1);
    }
  }
}
