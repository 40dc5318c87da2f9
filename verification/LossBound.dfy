/**
 Over every run of a connection the packet-loss estimate stays within [0, 1]: this needs
 the three-second expiry, the six-second ring and the order of steps in `update` together.
 */
module LossBound {
  import opened Common
  import opened Wire
  import opened Stats
  import opened Connection
  import ReliableReceive
  import Unreliable

  // ---------------------------------------------------------------- tracked packets per slot

  /** How many tracked packets with sequence below `n` were sent in slot `j`. */
  ghost function Tracked(sent: map<nat, PacketSent>, n: nat, j: nat): nat {
    if n == 0 then 0
    else Tracked(sent, n - 1, j) + if n - 1 in sent && Index(sent[n - 1].sentAt) == j then 1 else 0
  }

  lemma {:induction false} TrackedSame(a: map<nat, PacketSent>, b: map<nat, PacketSent>, n: nat, j: nat)
    requires forall s :: 0 <= s < n ==> (s in a <==> s in b) && (s in a ==> a[s] == b[s])
    ensures Tracked(a, n, j) == Tracked(b, n, j)
  {
    if n > 0 {
      TrackedSame(a, b, n - 1, j);
    }
  }

  lemma {:induction false} TrackedRemove(sent: map<nat, PacketSent>, s: nat, n: nat, j: nat)
    requires s in sent && s < n
    ensures Tracked(sent - {s}, n, j) == Tracked(sent, n, j) - if Index(sent[s].sentAt) == j then 1 else 0
  {
    hide Index;
    if s == n - 1 {
      TrackedSame(sent, sent - {s}, n - 1, j);
    } else {
      TrackedRemove(sent, s, n - 1, j);
    }
  }

  lemma {:induction false} TrackedSubset(a: map<nat, PacketSent>, b: map<nat, PacketSent>, n: nat, j: nat)
    requires forall s :: s in a ==> s in b && a[s] == b[s]
    ensures Tracked(a, n, j) <= Tracked(b, n, j)
  {
    hide Index;
    if n > 0 {
      TrackedSubset(a, b, n - 1, j);
    }
  }

  lemma {:induction false} TrackedNone(sent: map<nat, PacketSent>, n: nat, j: nat)
    requires forall s :: s in sent ==> Index(sent[s].sentAt) != j
    ensures Tracked(sent, n, j) == 0
  {
    hide Index;
    if n > 0 {
      TrackedNone(sent, n - 1, j);
    }
  }

  /** Recording a tick adds its packets, with fresh sequences, to what was tracked. */
  lemma {:induction false} RecordAdds(sent: map<nat, PacketSent>, ps: seq<Packet>, now: Time, n: nat)
    requires Consecutive(ps, n) && forall s :: s in sent ==> s < n
    ensures var r := Record(sent, ps, now);
      && (forall s :: s in r <==> s in sent || n <= s < n + |ps|)
      && (forall s :: s in sent ==> r[s] == sent[s])
      && (forall s :: n <= s < n + |ps| ==> r[s] == PacketSent(now, InfoOf(ps[s - n])))
  {
    hide InfoOf;
    if ps != [] {
      RecordAdds(sent, ps[..|ps| - 1], now, n);
    }
  }

  lemma {:induction false} RecordTracked(sent: map<nat, PacketSent>, ps: seq<Packet>, now: Time, n: nat, j: nat)
    requires Consecutive(ps, n) && forall s :: s in sent ==> s < n
    ensures Tracked(Record(sent, ps, now), n + |ps|, j) ==
            Tracked(sent, n, j) + if Index(now) == j then |ps| else 0
  {
    hide Index, InfoOf;
    if ps != [] {
      var k := |ps| - 1;
      RecordTracked(sent, ps[..k], now, n, j);
      RecordAdds(sent, ps[..k], now, n);
      TrackedSame(Record(sent, ps[..k], now), Record(sent, ps, now), n + k, j);
    }
  }

  // ---------------------------------------------------------------- expiry

  /** Packets with higher sequences were not sent earlier, and none in the future. */
  ghost predicate InOrder(sent: map<nat, PacketSent>, now: Time) {
    && (forall s :: s in sent ==> sent[s].sentAt <= now)
    && (forall s, t :: s in sent && t in sent && s < t ==> sent[s].sentAt <= sent[t].sentAt)
  }

  lemma {:induction false} FirstFreshIs(sent: map<nat, PacketSent>, now: Time, k: nat, n: nat)
    requires k <= n
    ensures var f := FirstFresh(sent, now, k, n);
      && k <= f <= n
      && (forall s :: k <= s < f && s in sent ==> now - sent[s].sentAt >= DISCARD_AFTER)
      && (f < n ==> f in sent && now - sent[f].sentAt < DISCARD_AFTER)
    decreases n - k
  {
    if k < n {
      FirstFreshIs(sent, now, k + 1, n);
    }
  }

  /** Because packets are sent in order, stopping early removes exactly the packets aged three seconds. */
  lemma EarlyExitIsFilter(sent: map<nat, PacketSent>, now: Time, n: nat)
    requires InOrder(sent, now) && forall s :: s in sent ==> s < n
    ensures Expire(sent, now, n) == map s | s in sent && now - sent[s].sentAt < DISCARD_AFTER :: sent[s]
  {
    FirstFreshIs(sent, now, 0, n);
  }

  /** A slot that is entered anew contains no packet that survives the expiry of the same update. */
  lemma EnteredSlotIsEmpty(sentAt: Time, before: Time, now: Time)
    requires sentAt <= before <= now && now - sentAt < DISCARD_AFTER && Index(before) != Index(now)
    ensures Index(sentAt) != Index(now)
  {
    var a, b, c := sentAt / NANOS_PER_MILLI / RESOLUTION_MILLIS, before / NANOS_PER_MILLI / RESOLUTION_MILLIS,
                   now / NANOS_PER_MILLI / RESOLUTION_MILLIS;
    assert a <= b <= c <= a + 10;
  }

  // ---------------------------------------------------------------- the invariant

  /** In each slot, acknowledged and still tracked packets together do not exceed the packets sent. */
  ghost predicate Balanced(stats: StatsState, sent: map<nat, PacketSent>, n: nat)
    requires WfStats(stats)
  {
    forall j :: 0 <= j < SIZE ==> stats.acked[j] + Tracked(sent, n, j) <= stats.sent[j]
  }

  lemma BalancedRecord(stats: StatsState, sent: map<nat, PacketSent>, ps: seq<Packet>, now: Time, n: nat)
    requires WfStats(stats) && stats.current == Index(now) && Balanced(stats, sent, n)
    requires Consecutive(ps, n) && forall s :: s in sent ==> s < n
    ensures Balanced(CountSent(stats, |ps|), Record(sent, ps, now), n + |ps|)
  {
    var stats' := CountSent(stats, |ps|);
    forall j | 0 <= j < SIZE
      ensures stats'.acked[j] + Tracked(Record(sent, ps, now), n + |ps|, j) <= stats'.sent[j]
    {
      RecordTracked(sent, ps, now, n, j);
      assert stats.acked[j] + Tracked(sent, n, j) <= stats.sent[j];
    }
  }

  lemma BalancedAck(stats: StatsState, sent: map<nat, PacketSent>, s: nat, now: Time, n: nat)
    requires WfStats(stats) && Balanced(stats, sent, n) && s in sent && s < n
    ensures Balanced(CountAcked(stats, sent[s].sentAt, now), sent - {s}, n)
  {
    var stats' := CountAcked(stats, sent[s].sentAt, now);
    forall j | 0 <= j < SIZE
      ensures stats'.acked[j] + Tracked(sent - {s}, n, j) <= stats'.sent[j]
    {
      TrackedRemove(sent, s, n, j);
      assert stats.acked[j] + Tracked(sent, n, j) <= stats.sent[j];
    }
  }

  ghost predicate LossInv(e: Endpoint) {
    && WfStats(e.stats)
    && e.stats.current == Index(e.currentTime)
    && InOrder(e.sentPackets, e.currentTime)
    && (forall s :: s in e.sentPackets ==> s < e.packetSequence)
    && (forall j :: 0 <= j < SIZE ==> e.stats.acked[j] <= e.stats.sent[j])
    && (Alive(e) ==> Balanced(e.stats, e.sentPackets, e.packetSequence))
  }

  lemma ExpireKeeps(e: Endpoint, now: Time)
    requires LossInv(e) && e.currentTime <= now
    ensures InOrder(Expire(e.sentPackets, now, e.packetSequence), now)
    ensures forall j :: 0 <= j < SIZE ==>
      Tracked(Expire(e.sentPackets, now, e.packetSequence), e.packetSequence, j) <=
      Tracked(e.sentPackets, e.packetSequence, j)
    ensures Index(e.currentTime) != Index(now) ==>
      Tracked(Expire(e.sentPackets, now, e.packetSequence), e.packetSequence, Index(now)) == 0
  {
    var kept := Expire(e.sentPackets, now, e.packetSequence);
    EarlyExitIsFilter(e.sentPackets, now, e.packetSequence);
    forall j | 0 <= j < SIZE
      ensures Tracked(kept, e.packetSequence, j) <= Tracked(e.sentPackets, e.packetSequence, j)
    {
      TrackedSubset(kept, e.sentPackets, e.packetSequence, j);
    }
    if Index(e.currentTime) != Index(now) {
      forall s | s in kept
        ensures Index(kept[s].sentAt) != Index(now)
      {
        EnteredSlotIsEmpty(kept[s].sentAt, e.currentTime, now);
      }
      TrackedNone(kept, e.packetSequence, Index(now));
    }
  }

  lemma UpdateLoss(e: Endpoint, duration: Time)
    requires LossInv(e) && WfEndpoint(e)
    ensures LossInv(Update(e, duration))
  {
    ExpireKeeps(e, e.currentTime + duration);
    hide Index, Expire, WfEndpoint;
  }

  /** The invariant depends on nothing but time, statistics and tracked packets. */
  lemma LossFrame(e: Endpoint, e': Endpoint)
    requires LossInv(e) && (Alive(e') ==> Alive(e))
    requires e'.currentTime == e.currentTime && e'.stats == e.stats
    requires e'.sentPackets == e.sentPackets && e'.packetSequence == e.packetSequence
    ensures LossInv(e')
  {
    hide Index, Tracked, InOrder;
  }

  lemma AckCountLoss(e: Endpoint, s: nat)
    requires LossInv(e) && Alive(e) && s in e.sentPackets
    ensures LossInv(e.(sentPackets := e.sentPackets - {s},
                       stats := CountAcked(e.stats, e.sentPackets[s].sentAt, e.currentTime)))
  {
    hide Index, Tracked, Balanced;
    BalancedAck(e.stats, e.sentPackets, s, e.currentTime, e.packetSequence);
    AckedWithinSent(e.stats, e.sentPackets, s, e.currentTime, e.packetSequence);
  }

  lemma AckedWithinSent(stats: StatsState, sent: map<nat, PacketSent>, s: nat, now: Time, n: nat)
    requires WfStats(stats) && Balanced(stats, sent, n) && s in sent && s < n
    ensures var stats' := CountAcked(stats, sent[s].sentAt, now);
      forall j :: 0 <= j < SIZE ==> stats'.acked[j] <= stats'.sent[j]
  {
    BalancedAck(stats, sent, s, now, n);
  }

  lemma ApplyAckInfoFrame(e: Endpoint, info: PacketInfo)
    ensures var r := ApplyAckInfo(e, info);
      r == e.(sendR := r.sendR, pendingAcks := r.pendingAcks, status := r.status) && (Alive(r) ==> Alive(e))
  {
  }

  lemma AckOneLoss(e: Endpoint, s: nat)
    requires LossInv(e) && Alive(e)
    ensures LossInv(AckOne(e, s))
  {
    assert WfStats(e.stats);
    hide LossInv;
    if s in e.sentPackets {
      AckCountLoss(e, s);
      var counted := e.(sentPackets := e.sentPackets - {s},
                        stats := CountAcked(e.stats, e.sentPackets[s].sentAt, e.currentTime));
      ApplyAckInfoFrame(counted, e.sentPackets[s].info);
      LossFrame(counted, AckOne(e, s));
    } else {
      LossFrame(e, e.(status := Panicked));
    }
  }

  lemma {:induction false} AckAllLoss(e: Endpoint, ss: seq<nat>)
    requires LossInv(e) && Alive(e)
    ensures LossInv(AckAll(e, ss)) && (Alive(AckAll(e, ss)) || AckAll(e, ss).status.Panicked?)
  {
    assert WfStats(e.stats);
    hide LossInv;
    if ss != [] {
      var n := |ss| - 1;
      AckAllLoss(e, ss[..n]);
      var prev := AckAll(e, ss[..n]);
      if !prev.status.Panicked? {
        AckOneLoss(prev, ss[n]);
        if ss[n] in prev.sentPackets {
          ApplyAckInfoAlive(prev.(sentPackets := prev.sentPackets - {ss[n]},
                                  stats := CountAcked(prev.stats, prev.sentPackets[ss[n]].sentAt, prev.currentTime)),
                            prev.sentPackets[ss[n]].info);
        }
      }
    }
  }

  lemma ApplyAckInfoAlive(e: Endpoint, info: PacketInfo)
    requires Alive(e)
    ensures Alive(ApplyAckInfo(e, info)) || ApplyAckInfo(e, info).status.Panicked?
  {
  }

  /** The fields that the invariant depends on are the same, and so are the sending channels. */
  ghost predicate SameTracking(e: Endpoint, r: Endpoint) {
    && r.currentTime == e.currentTime && r.stats == e.stats && r.sentPackets == e.sentPackets
    && r.packetSequence == e.packetSequence && (Alive(r) ==> Alive(e))
    && r.sendR == e.sendR && r.sendU == e.sendU && r.sendOrder == e.sendOrder
  }

  lemma OnErrorFrame(e: Endpoint, c: byte, error: Option<ReliableReceive.RecvError>)
    ensures SameTracking(e, OnError(e, c, error))
  {
  }

  /** Only acknowledgements touch the statistics and the tracked packets. */
  lemma HandleFrame(e: Endpoint, p: Packet)
    requires WfStats(e.stats) && !p.Ack?
    ensures SameTracking(e, Handle(e, p))
  {
    hide OnError, ProcessEntries, UProcessMessages, ReliableReceive.ProcessSlice, Unreliable.UProcessSlice, WfStats;
    match p {
      case SmallReliable(_, c, es) =>
        if c in e.recvR {
          var o := ProcessEntries(e.recvR[c], es);
          OnErrorFrame(e.(recvR := e.recvR[c := o.state]), c, o.error);
        }
      case ReliableSlice(_, c, sl) =>
        if c in e.recvR {
          var o := ReliableReceive.ProcessSlice(e.recvR[c], sl);
          OnErrorFrame(e.(recvR := e.recvR[c := o.state]), c, o.error);
        }
      case UnreliableSlice(_, c, sl) =>
        if c in e.recvU {
          var o := Unreliable.UProcessSlice(e.recvU[c], sl, e.currentTime);
          OnErrorFrame(e.(recvU := e.recvU[c := o.state]), c, o.error);
        }
      case SmallUnreliable(_, _, _) =>
    }
  }

  /** The invariant survives any packet, whatever its bytes. */
  lemma ProcessPacketLoss(e: Endpoint, bytes: seq<byte>)
    requires LossInv(e)
    ensures LossInv(ProcessPacket(e, bytes))
  {
    var e' := ProcessPacket(e, bytes);
    if Alive(e) && Decode(bytes).Ok? {
      var p := Decode(bytes).value;
      hide Decode;
      var noted := e.(pendingAcks := AckRanges.AddAck(e.pendingAcks, p.sequence));
      LossFrame(e, noted);
      hide LossInv, HandleReliable, OnError, AckAll;
      if p.Ack? {
        AckAllLoss(noted, NewAcks(noted.sentPackets, p.ackRanges));
      } else {
        HandleFrame(noted, p);
        LossFrame(noted, Handle(noted, p));
      }
    } else {
      LossFrame(e, e');
    }
  }

  lemma {:induction false} SerializedCount(ps: seq<Packet>)
    ensures SerializeAll(ps).Payloads? ==> |SerializeAll(ps).payloads| == |ps|
  {
    hide Encodable, Encode;
    if ps != [] {
      SerializedCount(ps[..|ps| - 1]);
    }
  }

  lemma RecordInOrder(sent: map<nat, PacketSent>, ps: seq<Packet>, now: Time, n: nat)
    requires Consecutive(ps, n) && InOrder(sent, now) && forall s :: s in sent ==> s < n
    ensures InOrder(Record(sent, ps, now), now)
    ensures forall s :: s in Record(sent, ps, now) ==> s < n + |ps|
  {
    RecordAdds(sent, ps, now, n);
    var r := Record(sent, ps, now);
    hide Record;
  }

  /**
   The packets recorded as tracked are the packets counted as sent. A tick that ends in a
   disconnect counts none of them, but then no acknowledgement is counted any more either.
   */
  lemma RecordLoss(e: Endpoint, e': Endpoint, ps: seq<Packet>)
    requires LossInv(e) && Alive(e) && Consecutive(ps, e.packetSequence)
    requires e'.currentTime == e.currentTime && e'.packetSequence == e.packetSequence + |ps|
    requires e'.sentPackets == Record(e.sentPackets, ps, e.currentTime)
    requires e'.stats == if Alive(e') then CountSent(e.stats, |ps|) else e.stats
    ensures LossInv(e')
  {
    hide Index, Tracked, Record, InOrder, Balanced, Consecutive;
    RecordInOrder(e.sentPackets, ps, e.currentTime, e.packetSequence);
    BalancedRecord(e.stats, e.sentPackets, ps, e.currentTime, e.packetSequence);
  }

  lemma GetPacketsLoss(e: Endpoint)
    requires LossInv(e) && WfEndpoint(e)
    ensures LossInv(GetPackets(e).endpoint)
  {
    hide LossInv, WfEndpoint, GetPackets, AllPackets, Gather, Record, SerializeAll, Consecutive, CountSent, WfStats;
    if !Alive(e) {
      DeadTick(e);
    } else {
      GetPacketsShape(e);
      SerializedCount(AllPackets(e));
      RecordLoss(e, GetPackets(e).endpoint, AllPackets(e));
    }
  }

  lemma MessageStepsLoss(e: Endpoint, c: byte, m: Message)
    requires LossInv(e)
    ensures c in e.sendR || c in e.sendU ==> LossInv(SendMessage(e, c, m))
    ensures WfEndpoint(e) && (c in e.recvR || c in e.recvU) ==> LossInv(ReceiveMessage(e, c).endpoint)
  {
    hide LossInv;
    if c in e.sendR || c in e.sendU {
      LossFrame(e, SendMessage(e, c, m));
    }
    if WfEndpoint(e) && (c in e.recvR || c in e.recvU) {
      LossFrame(e, ReceiveMessage(e, c).endpoint);
    }
  }

  /** In every state of every run the packet-loss estimate is a fraction. */
  lemma LossIsFraction(e: Endpoint)
    requires LossInv(e)
    ensures 0.0 <= PacketLoss(e.stats) <= 1.0
  {
    hide Tracked, Index;
    LossInUnitInterval(e.stats);
  }
}
