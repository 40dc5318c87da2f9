/**
 What a connection guarantees, in the last state of every run of two endpoints over a
 network that loses, duplicates and reorders. Each statement is about the direction from
 `x` to `y`; `Swap` gives the other one.
 */
module Theorems {
  import opened Common
  import opened AckRanges
  import opened Wire
  import opened Stats
  import opened Connection
  import opened Direction
  import opened Delivery
  import RS = ReliableSend
  import RR = ReliableReceive
  import DR = DirectionReceive
  import LB = LossBound

  ghost function Last(run: seq<System>): System
    requires |run| > 0
  {
    run[|run| - 1]
  }

  lemma ReceiverAt(s: System, c: byte)
    requires SysInv(s) && c in s.y.recvR
    ensures RR.RecvInv(s.y.recvR[c], At(s.hxy.sent, c), At(s.hxy.delivered, c))
    ensures OutOk(At(s.hxy.out, c), At(s.hxy.delivered, c), At(s.hxy.sent, c))
  {
    assert RecvROk(s.y.recvR, s.hxy);
  }

  lemma SenderAt(s: System, c: byte)
    requires SysInv(s) && c in s.x.sendR
    ensures Holds(s.x.sendR[c], c, At(s.hxy.sent, c)) && Known(s.x.sendR[c], s.y.recvR, c)
  {
    assert SendROk(s.x.sendR, s.hxy) && KnowledgeOk(s.x.sendR, s.y.recvR);
  }

  /** On an ordered channel what was handed out is a prefix of what was sent, as long as `oldest`. */
  lemma OrderedOut(s: System, c: byte)
    requires SysInv(s) && c in s.y.recvR && s.y.recvR[c].order.Ordered?
    ensures At(s.hxy.out, c) <= At(s.hxy.sent, c) && |At(s.hxy.out, c)| == s.y.recvR[c].oldest
  {
    ReceiverAt(s, c);
    hide SysInv, RR.MemoryExact, RR.Faithful;
    var out, ids := At(s.hxy.out, c), At(s.hxy.delivered, c);
    assert out != [] ==> ids[|out| - 1] == |out| - 1;
    assert forall k :: 0 <= k < |out| ==> ids[k] == k;
  }

  /** The messages handed out by an ordered channel are, byte for byte, a prefix of the messages sent. */
  lemma OrderedDelivery(run: seq<System>, c: byte)
    requires IsRun(run) && c in Last(run).y.recvR && Last(run).y.recvR[c].order.Ordered?
    ensures At(Last(run).hxy.out, c) <= At(Last(run).hxy.sent, c)
    ensures |At(Last(run).hxy.out, c)| == Last(run).y.recvR[c].oldest
  {
    hide Step, Initial, SysInv;
    RunInv(run);
    OrderedOut(Last(run), c);
  }

  /** The ids an unordered channel has accepted so far. */
  ghost predicate AcceptedSoFar(r: RR.RecvState, id: nat)
    requires r.order.Unordered?
  {
    id < r.oldest || id in r.order.received
  }

  /**
   An unordered channel hands out each message at most once, with its original bytes, and
   forgets none: what it has accepted is what it has handed out plus what it still holds.
   */
  lemma UnorderedAtMostOnce(run: seq<System>, c: byte)
    requires IsRun(run) && c in Last(run).y.recvR && Last(run).y.recvR[c].order.Unordered?
    ensures var s := Last(run);
      var out, ids, sent := At(s.hxy.out, c), At(s.hxy.delivered, c), At(s.hxy.sent, c);
      && |out| == |ids| && Distinct(ids)
      && (forall k :: 0 <= k < |out| ==> ids[k] < |sent| && out[k] == sent[ids[k]])
    ensures var s := Last(run);
      var r, ids := s.y.recvR[c], At(s.hxy.delivered, c);
      && (forall id :: AcceptedSoFar(r, id) <==> id in ids || id in r.messages)
      && (forall id :: id in ids ==> id !in r.messages)
      && (forall id :: id in r.messages ==> id < |At(s.hxy.sent, c)| && r.messages[id] == At(s.hxy.sent, c)[id])
  {
    hide Step, Initial, SysInv, RR.MemoryExact;
    RunInv(run);
    ReceiverAt(Last(run), c);
  }

  /**
   Acknowledgements lose nothing: each message accepted by `send_message` is still held by
   the sender, or the receiver has handed it out or holds it; and each slice marked as
   acknowledged is one the receiver has.
   */
  lemma NothingLost(run: seq<System>, c: byte, id: nat)
    requires IsRun(run) && c in Last(run).x.sendR && id < |At(Last(run).hxy.sent, c)|
    ensures var s := Last(run);
      var held, sent := s.x.sendR[c].unacked, At(s.hxy.sent, c);
      && (id in held ==> held[id].message == sent[id])
      && (id !in held ==>
           c in s.y.recvR && (id in At(s.hxy.delivered, c) ||
                              (id in s.y.recvR[c].messages && s.y.recvR[c].messages[id] == sent[id])))
    ensures var s := Last(run);
      forall i :: id in s.x.sendR[c].unacked && MarkedAcked(s.x.sendR[c].unacked[id], i) ==>
                  c in s.y.recvR && RR.GotSlice(s.y.recvR[c], id, i)
  {
    hide Step, Initial, SysInv, RR.MemoryExact;
    RunInv(run);
    var s := Last(run);
    SenderAt(s, c);
    if c in s.y.recvR {
      ReceiverAt(s, c);
    }
  }

  /** What an unreliable channel hands out was sent, with its original bytes. */
  lemma UnreliableIntegrity(run: seq<System>, c: byte)
    requires IsRun(run) && c in Last(run).y.recvU && c !in Last(run).y.recvR
    ensures Within(At(Last(run).hxy.out, c), At(Last(run).hxy.usent, c))
  {
    hide Step, Initial, SysInv;
    RunInv(run);
    assert RecvUOk(Last(run).y.recvR, Last(run).y.recvU, Last(run).hxy, Last(run).y.currentTime) by {
      ReceiverPart(Last(run));
    }
  }

  lemma ReceiverPart(s: System)
    requires SysInv(s)
    ensures ReceiverOk(s.y, s.hxy)
  {
    hide ReceiverOk;
  }

  /**
   Packets are numbered consecutively from zero, and every payload handed to the network
   decodes to its packet, unless that is a slice of a message with too many slices.
   */
  lemma EmittedPacketsRoundTrip(run: seq<System>, i: nat)
    requires IsRun(run) && i < |Last(run).xy.wire|
    ensures var link := Last(run).xy;
      && |link.wire| <= |link.log| && link.log[i].sequence == i
      && Decode(link.wire[i]) == if TooManySlices(link.log[i]) then Err(InvalidNumSlices) else Ok(link.log[i])
  {
    var s := Last(run);
    hide Step, Initial, Encodable, Encode, Decode, Genuine, SysInv, SendROk, SendUOk, TrackOk, ChannelsOk;
    RunInv(run);
    SenderPart(s);
    DR.GenuineDecodes(s.hxy, s.xy.log[i]);
  }

  lemma SenderPart(s: System)
    requires SysInv(s)
    ensures SenderOk(s.x, s.xy, s.hxy)
  {
    hide SenderOk;
  }

  /** In every run a panic in serialization is preceded by a counter that passed 2^62. */
  lemma PanicsOnlyOnOverflow(run: seq<System>)
    requires IsRun(run) && Last(run).x.status.Panicked?
    ensures Overflowed(Last(run).x)
  {
    hide Step, Initial, Overflowed, DirInv;
    RunInv(run);
  }

  /** No payload of the peer, however late or often it arrives, makes an endpoint panic. */
  lemma DeliveryNeverPanics(run: seq<System>, i: nat)
    requires IsRun(run) && Enabled(Last(run), DoDeliver(i))
    ensures !ProcessPacket(Last(run).x, Last(run).yx.wire[i]).status.Panicked?
  {
    hide Step, Initial, SysInv, ProcessPacket;
    RunInv(run);
    DeliverStep(Last(run), i);
  }

  /** The packet-loss estimate is a fraction. */
  lemma LossEstimateIsFraction(run: seq<System>)
    requires IsRun(run)
    ensures WfStats(Last(run).x.stats) && 0.0 <= PacketLoss(Last(run).x.stats) <= 1.0
  {
    hide Step, Initial, DirInv;
    RunInv(run);
    LB.LossIsFraction(Last(run).x);
  }

  /** The memory counters of all channels are exact and within their limits. */
  lemma MemoryIsExact(run: seq<System>)
    requires IsRun(run)
    ensures var s := Last(run);
      && (forall c :: c in s.x.sendR ==>
           s.x.sendR[c].memoryUsage == RS.HeldBytes(s.x.sendR[c].unacked, s.x.sendR[c].nextId) <= s.x.sendR[c].maxMemory)
      && (forall c :: c in s.x.sendU ==> s.x.sendU[c].memoryUsage == QueueBytes(s.x.sendU[c].queue) <= s.x.sendU[c].maxMemory)
      && (forall c :: c in s.y.recvR ==> RR.MemoryExact(s.y.recvR[c]))
      && (forall c :: c in s.y.recvU ==> UMemoryExact(s.y.recvU[c]))
  {
    hide Step, Initial, RR.MemoryExact, UMemoryExact;
    RunInv(run);
    SenderPart(Last(run));
    ReceiverPart(Last(run));
    WfReceiving(Last(run).y, Last(run).hxy);
    hide SysInv, LinkOk, TrackOk, ChannelsOk, Words, Within, ReceiverOk, RS.HeldBytes, QueueBytes;
  }

  /** Packets older than three seconds, and only those, are given up by the early-exit loop of `update`. */
  lemma UpdateExpiresExactlyOld(run: seq<System>, duration: Time)
    requires IsRun(run)
    ensures var x := Last(run).x;
      var now := x.currentTime + duration;
      Expire(x.sentPackets, now, x.packetSequence) ==
        map s | s in x.sentPackets && now - x.sentPackets[s].sentAt < DISCARD_AFTER :: x.sentPackets[s]
  {
    hide Step, Initial, DirInv, Expire;
    RunInv(run);
    var x := Last(run).x;
    LB.EarlyExitIsFilter(x.sentPackets, x.currentTime + duration, x.packetSequence);
  }
}
