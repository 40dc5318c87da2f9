/**
 What the packet-loss estimate counts (renet/src/connection_stats.rs), over every run: per
 slot, each packet sent since the slot was entered was acknowledged, was given up as time
 passed, or is still tracked; the estimate is the share of the last two.
 */
module LossShare {
  import opened Common
  import opened Wire
  import opened Stats
  import opened Connection
  import opened Delivery
  import opened Theorems
  import opened LossBound
  import AckRanges
  import RS = ReliableSend
  import RR = ReliableReceive
  import U = Unreliable

  // ---------------------------------------------------------------- what happened, read off the tracked packets

  /** How many packets below `n`, sent in slot `j`, are tracked in `a` and not in `b`. */
  ghost function Removed(a: map<nat, PacketSent>, b: map<nat, PacketSent>, n: nat, j: nat): nat {
    if n == 0 then 0
    else Removed(a, b, n - 1, j) + if n - 1 in a && n - 1 !in b && Index(a[n - 1].sentAt) == j then 1 else 0
  }

  /** Time passed and slot `j` was entered. */
  ghost predicate Entered(e: Endpoint, e': Endpoint, j: nat) {
    Index(e.currentTime) != Index(e'.currentTime) && j == Index(e'.currentTime)
  }

  /** Packets that went out in slot `j`. */
  ghost function Went(e: Endpoint, e': Endpoint, j: nat): nat {
    if j == Index(e'.currentTime) && e.packetSequence <= e'.packetSequence then e'.packetSequence - e.packetSequence else 0
  }

  /** Packets of slot `j` that are no longer tracked. */
  ghost function Gone(e: Endpoint, e': Endpoint, j: nat): nat {
    Removed(e.sentPackets, e'.sentPackets, e.packetSequence, j)
  }

  /** Packets sent in slot `j` since it was entered. */
  ghost function SentIn(run: seq<System>, j: nat): nat
    requires |run| > 0
  {
    if |run| == 1 then 0
    else
      var m := |run| - 1;
      var x, x' := run[m - 1].x, run[m].x;
      if Entered(x, x', j) then 0 else SentIn(run[..m], j) + Went(x, x', j)
  }

  /** Of these, the ones that stopped being tracked without time passing: the acknowledged ones. */
  ghost function AckedIn(run: seq<System>, j: nat): nat
    requires |run| > 0
  {
    if |run| == 1 then 0
    else
      var m := |run| - 1;
      var x, x' := run[m - 1].x, run[m].x;
      if Entered(x, x', j) then 0
      else AckedIn(run[..m], j) + if x'.currentTime == x.currentTime then Gone(x, x', j) else 0
  }

  /** And the ones that stopped being tracked as time passed. */
  ghost function ExpiredIn(run: seq<System>, j: nat): nat
    requires |run| > 0
  {
    if |run| == 1 then 0
    else
      var m := |run| - 1;
      var x, x' := run[m - 1].x, run[m].x;
      if Entered(x, x', j) then 0
      else ExpiredIn(run[..m], j) + if x'.currentTime == x.currentTime then 0 else Gone(x, x', j)
  }

  // ---------------------------------------------------------------- counting

  lemma {:induction false} RemovedNone(a: map<nat, PacketSent>, b: map<nat, PacketSent>, n: nat, j: nat)
    requires forall s :: s in a ==> s in b
    ensures Removed(a, b, n, j) == 0
  {
    hide Index;
    if n > 0 {
      RemovedNone(a, b, n - 1, j);
    }
  }

  /** What was tracked is still tracked or removed. */
  lemma {:induction false} TrackedSplits(a: map<nat, PacketSent>, b: map<nat, PacketSent>, n: nat, j: nat)
    requires forall s :: s in b ==> s in a && b[s] == a[s]
    ensures Tracked(a, n, j) == Tracked(b, n, j) + Removed(a, b, n, j)
  {
    hide Index;
    if n > 0 {
      TrackedSplits(a, b, n - 1, j);
    }
  }

  /** Tracked packets are younger than the time after which they are given up. */
  ghost predicate Fresh(sent: map<nat, PacketSent>, now: Time) {
    forall s :: s in sent ==> now - sent[s].sentAt < DISCARD_AFTER
  }

  // ---------------------------------------------------------------- steps

  /** The counters and tracked packets of slot `j` change exactly by what happened. */
  ghost predicate Counts(e: Endpoint, e': Endpoint, j: nat)
    requires WfStats(e.stats) && WfStats(e'.stats) && j < SIZE
  {
    && e.currentTime <= e'.currentTime && e.packetSequence <= e'.packetSequence
    && e'.stats.sent[j] == (if Entered(e, e', j) then 0 else e.stats.sent[j] + Went(e, e', j))
    && e'.stats.acked[j] ==
       (if Entered(e, e', j) then 0 else e.stats.acked[j] + if e'.currentTime == e.currentTime then Gone(e, e', j) else 0)
    && Tracked(e'.sentPackets, e'.packetSequence, j) + Gone(e, e', j) ==
       Tracked(e.sentPackets, e.packetSequence, j) + Went(e, e', j)
    && (Entered(e, e', j) ==> Tracked(e'.sentPackets, e'.packetSequence, j) == 0)
  }

  lemma SameCounts(e: Endpoint, e': Endpoint, j: nat)
    requires WfStats(e.stats) && j < SIZE && e'.stats == e.stats && e'.currentTime == e.currentTime
    requires e'.sentPackets == e.sentPackets && e'.packetSequence == e.packetSequence
    ensures Counts(e, e', j)
  {
    hide Index, Tracked, WfStats;
    RemovedNone(e.sentPackets, e'.sentPackets, e.packetSequence, j);
  }

  lemma UpdateParts(e: Endpoint, d: Time)
    requires LossInv(e) && WfEndpoint(e)
    ensures WfStats(e.stats) && e.stats.current == Index(e.currentTime)
    ensures var e' := Update(e, d);
      && e'.currentTime == e.currentTime + d && e'.packetSequence == e.packetSequence
      && e'.stats == UpdateStats(e.stats, e'.currentTime)
      && e'.sentPackets == Expire(e.sentPackets, e'.currentTime, e.packetSequence)
  {
    hide UpdateStats, Expire, DiscardAll, WfEndpoint, Balanced, InOrder;
  }

  lemma ExpiryIs(e: Endpoint, now: Time)
    requires LossInv(e) && e.currentTime <= now
    ensures var kept := Expire(e.sentPackets, now, e.packetSequence);
      && kept == (map s | s in e.sentPackets && now - e.sentPackets[s].sentAt < DISCARD_AFTER :: e.sentPackets[s])
      && (Index(e.currentTime) != Index(now) ==> Tracked(kept, e.packetSequence, Index(now)) == 0)
  {
    ExpireKeeps(e, now);
    hide Index, Expire, Tracked, Balanced;
    EarlyExitIsFilter(e.sentPackets, now, e.packetSequence);
  }

  lemma UpdateCounts(e: Endpoint, d: Time, j: nat)
    requires LossInv(e) && WfEndpoint(e) && Fresh(e.sentPackets, e.currentTime) && j < SIZE
    ensures WfStats(Update(e, d).stats) && Counts(e, Update(e, d), j)
    ensures Fresh(Update(e, d).sentPackets, Update(e, d).currentTime)
  {
    hide LossInv, Index, Expire, WfEndpoint, Tracked, Removed, Update;
    UpdateParts(e, d);
    var e' := Update(e, d);
    ExpiryIs(e, e'.currentTime);
    TrackedSplits(e.sentPackets, e'.sentPackets, e.packetSequence, j);
    if d == 0 {
      RemovedNone(e.sentPackets, e'.sentPackets, e.packetSequence, j);
    }
  }

  /** What acknowledging does: what is no longer tracked is counted in its slot. */
  ghost predicate AckCounts(e: Endpoint, e': Endpoint, j: nat)
    requires WfStats(e.stats) && j < SIZE
  {
    && WfStats(e'.stats) && e'.currentTime == e.currentTime && e'.packetSequence == e.packetSequence
    && e'.stats.sent == e.stats.sent
    && (forall s :: s in e'.sentPackets ==> s in e.sentPackets && e'.sentPackets[s] == e.sentPackets[s])
    && e'.stats.acked[j] + Tracked(e'.sentPackets, e.packetSequence, j) ==
       e.stats.acked[j] + Tracked(e.sentPackets, e.packetSequence, j)
  }

  lemma AckOneCounts(e: Endpoint, s: nat, j: nat)
    requires LossInv(e) && Fresh(e.sentPackets, e.currentTime) && j < SIZE && s in e.sentPackets
    ensures AckCounts(e, AckOne(e, s), j) && Fresh(AckOne(e, s).sentPackets, e.currentTime)
  {
    var counted := e.(sentPackets := e.sentPackets - {s},
                      stats := CountAcked(e.stats, e.sentPackets[s].sentAt, e.currentTime));
    ApplyAckInfoFrame(counted, e.sentPackets[s].info);
    hide Index, Tracked, InOrder, ApplyAckInfo, Balanced;
    TrackedRemove(e.sentPackets, s, e.packetSequence, j);
  }

  lemma AckCountsOn(e: Endpoint, t: Endpoint, u: Endpoint, j: nat)
    requires WfStats(e.stats) && j < SIZE && AckCounts(e, t, j) && AckCounts(t, u, j)
    ensures AckCounts(e, u, j)
  {
    hide Tracked, WfStats;
  }

  lemma {:induction false} AckAllCounts(e: Endpoint, ss: seq<nat>, j: nat)
    requires LossInv(e) && Alive(e) && Fresh(e.sentPackets, e.currentTime) && j < SIZE && Alive(AckAll(e, ss))
    ensures AckCounts(e, AckAll(e, ss), j) && Fresh(AckAll(e, ss).sentPackets, e.currentTime)
  {
    assert WfStats(e.stats);
    hide LossInv, WfStats, Tracked, AckOne, AckCounts, Fresh;
    if ss == [] {
      assert AckCounts(e, e, j) by { NoAckCounts(e, j); }
    } else {
      var n := |ss| - 1;
      var prev := AckAll(e, ss[..n]);
      AckAllLoss(e, ss[..n]);
      assert !prev.status.Panicked?;
      AckAllCounts(e, ss[..n], j);
      assert prev.currentTime == e.currentTime by { AckCountsTime(e, prev, j); }
      assert ss[n] in prev.sentPackets by { UntrackedPanics(prev, ss[n]); }
      AckOneCounts(prev, ss[n], j);
      AckCountsOn(e, prev, AckOne(prev, ss[n]), j);
    }
  }

  lemma UntrackedPanics(e: Endpoint, s: nat)
    requires WfStats(e.stats) && !AckOne(e, s).status.Panicked?
    ensures s in e.sentPackets
  {
  }

  lemma NoAckCounts(e: Endpoint, j: nat)
    requires WfStats(e.stats) && j < SIZE
    ensures AckCounts(e, e, j)
  {
  }

  lemma AckCountsTime(e: Endpoint, e': Endpoint, j: nat)
    requires WfStats(e.stats) && j < SIZE && AckCounts(e, e', j)
    ensures e'.currentTime == e.currentTime
  {
  }

  lemma AckCountsIs(e: Endpoint, e': Endpoint, j: nat)
    requires WfStats(e.stats) && j < SIZE && AckCounts(e, e', j)
    ensures Counts(e, e', j)
  {
    hide Index, Tracked, Removed;
    TrackedSplits(e.sentPackets, e'.sentPackets, e.packetSequence, j);
  }

  lemma ProcessCounts(e: Endpoint, bytes: seq<byte>, j: nat)
    requires LossInv(e) && Fresh(e.sentPackets, e.currentTime) && j < SIZE && Alive(ProcessPacket(e, bytes))
    ensures WfStats(ProcessPacket(e, bytes).stats) && Counts(e, ProcessPacket(e, bytes), j)
    ensures Fresh(ProcessPacket(e, bytes).sentPackets, e.currentTime)
  {
    assert WfStats(e.stats);
    hide LossInv, Decode, Handle, WfStats, Fresh, Counts;
    var e' := ProcessPacket(e, bytes);
    var d := Decode(bytes);
    if !Alive(e) {
      SameCounts(e, e', j);
    } else {
      assert d.Ok?;
      var noted := e.(pendingAcks := AckRanges.AddAck(e.pendingAcks, d.value.sequence));
      LossFrame(e, noted);
      if d.value.Ack? {
        AckHandled(noted, d.value);
        AckAllCounts(noted, NewAcks(noted.sentPackets, d.value.ackRanges), j);
        AckCountsIs(noted, e', j);
        CountsNoted(e, noted, e', j);
      } else {
        HandleFrame(noted, d.value);
        SameCounts(e, e', j);
      }
    }
  }

  lemma AckHandled(e: Endpoint, p: Packet)
    requires WfStats(e.stats) && p.Ack?
    ensures Handle(e, p) == AckAll(e, NewAcks(e.sentPackets, p.ackRanges))
  {
  }

  lemma CountsNoted(e: Endpoint, noted: Endpoint, e': Endpoint, j: nat)
    requires WfStats(e.stats) && WfStats(e'.stats) && j < SIZE && noted == e.(pendingAcks := noted.pendingAcks)
    requires Counts(noted, e', j)
    ensures Counts(e, e', j)
  {
  }

  /** The packets of a tick are recorded and counted. */
  lemma RecordCounts(e: Endpoint, e': Endpoint, ps: seq<Packet>, j: nat)
    requires WfStats(e.stats) && e.stats.current == Index(e.currentTime) && j < SIZE
    requires Fresh(e.sentPackets, e.currentTime) && forall s :: s in e.sentPackets ==> s < e.packetSequence
    requires Consecutive(ps, e.packetSequence) && e'.currentTime == e.currentTime
    requires e'.packetSequence == e.packetSequence + |ps| && e'.stats == CountSent(e.stats, |ps|)
    requires e'.sentPackets == Record(e.sentPackets, ps, e.currentTime)
    ensures WfStats(e'.stats) && Counts(e, e', j) && Fresh(e'.sentPackets, e.currentTime)
  {
    hide Record, Consecutive, Index, Tracked, Removed, InfoOf;
    RecordAdds(e.sentPackets, ps, e.currentTime, e.packetSequence);
    RecordTracked(e.sentPackets, ps, e.currentTime, e.packetSequence, j);
    RemovedNone(e.sentPackets, e'.sentPackets, e.packetSequence, j);
  }

  lemma LossParts(e: Endpoint)
    requires LossInv(e)
    ensures WfStats(e.stats) && e.stats.current == Index(e.currentTime) && forall s :: s in e.sentPackets ==> s < e.packetSequence
  {
    hide Index, InOrder, Balanced;
  }

  lemma TickCounts(e: Endpoint, j: nat)
    requires LossInv(e) && WfEndpoint(e) && Fresh(e.sentPackets, e.currentTime) && j < SIZE
    requires Alive(e) && Alive(GetPackets(e).endpoint)
    ensures WfStats(e.stats) && WfStats(GetPackets(e).endpoint.stats) && Counts(e, GetPackets(e).endpoint, j)
    ensures Fresh(GetPackets(e).endpoint.sentPackets, e.currentTime)
  {
    hide LossInv, WfEndpoint, GetPackets, AllPackets, Gather, Record, SerializeAll, Consecutive, Index, Counts, WfStats, CountSent,
      Fresh;
    LossParts(e);
    GetPacketsShape(e);
    SerializedCount(AllPackets(e));
    RecordCounts(e, GetPackets(e).endpoint, AllPackets(e), j);
  }

  // ---------------------------------------------------------------- runs

  /** The counters of slot `j` are what happened, and the balance is exact. */
  ghost predicate Exact(run: seq<System>, j: nat)
    requires |run| > 0 && j < SIZE && WfStats(Last(run).x.stats)
  {
    var x := Last(run).x;
    && x.stats.sent[j] == SentIn(run, j) && x.stats.acked[j] == AckedIn(run, j)
    && AckedIn(run, j) + ExpiredIn(run, j) + Tracked(x.sentPackets, x.packetSequence, j) == SentIn(run, j)
  }

  lemma LossOf(s: System)
    requires SysInv(s)
    ensures LossInv(s.x)
  {
  }

  lemma ActCounts(s: System, a: Action, j: nat)
    requires SysInv(s) && Enabled(s, a) && Fresh(s.x.sentPackets, s.x.currentTime) && j < SIZE && Alive(Act(s, a).x)
    ensures WfStats(s.x.stats) && WfStats(Act(s, a).x.stats) && Alive(s.x)
    ensures Counts(s.x, Act(s, a).x, j) && Fresh(Act(s, a).x.sentPackets, Act(s, a).x.currentTime)
  {
    hide SysInv, LossInv, WfEndpoint, SendMessage, ReceiveMessage, GetPackets, ProcessPacket, Update, Counts, Fresh, WfStats;
    LossOf(s);
    LossParts(s.x);
    match a {
      case DoSend(c, m) =>
        SendFrameOf(s.x, c, m);
        SameCounts(s.x, Act(s, a).x, j);
      case DoReceive(c) =>
        ReceiveFrameOf(s.x, c);
        SameCounts(s.x, Act(s, a).x, j);
      case DoUpdate(d) =>
        UpdateCounts(s.x, d, j);
        UpdateStatus(s.x, d);
      case DoTick =>
        if Alive(s.x) {
          TickCounts(s.x, j);
          TickTime(s.x);
        } else {
          DeadTick(s.x);
        }
      case DoDeliver(i) =>
        ProcessCounts(s.x, s.yx.wire[i], j);
        ProcessTime(s.x, s.yx.wire[i]);
      case _ => SameCounts(s.x, Act(s, a).x, j);
    }
  }

  lemma SendFrameOf(e: Endpoint, c: byte, m: Message)
    requires c in e.sendR || c in e.sendU
    ensures var r := SendMessage(e, c, m);
      && r.stats == e.stats && r.currentTime == e.currentTime && r.sentPackets == e.sentPackets
      && r.packetSequence == e.packetSequence && (Alive(r) ==> Alive(e))
  {
    hide RS.SendMessage, U.Enqueue;
  }

  lemma ReceiveFrameOf(e: Endpoint, c: byte)
    requires WfEndpoint(e) && (c in e.recvR || c in e.recvU)
    ensures var r := ReceiveMessage(e, c).endpoint;
      && r.stats == e.stats && r.currentTime == e.currentTime && r.sentPackets == e.sentPackets
      && r.packetSequence == e.packetSequence && (Alive(r) ==> Alive(e))
  {
    hide WfEndpoint, RR.Receive, U.UReceive;
  }

  lemma UpdateStatus(e: Endpoint, d: Time)
    requires WfEndpoint(e)
    ensures Update(e, d).status == e.status
  {
    hide WfEndpoint, Expire, DiscardAll, UpdateStats;
  }

  lemma TickTime(e: Endpoint)
    requires WfEndpoint(e) && Alive(e)
    ensures GetPackets(e).endpoint.currentTime == e.currentTime
  {
    hide WfEndpoint, GetPackets, AllPackets, Gather, Record, SerializeAll, Consecutive;
    GetPacketsShape(e);
  }

  lemma ProcessTime(e: Endpoint, bytes: seq<byte>)
    requires LossInv(e) && Alive(ProcessPacket(e, bytes))
    ensures WfStats(e.stats) && ProcessPacket(e, bytes).currentTime == e.currentTime && Alive(e)
  {
    LossParts(e);
    hide LossInv, Decode, WfStats, Handle;
    if Alive(e) && Decode(bytes).Ok? {
      HandleTime(e.(pendingAcks := AckRanges.AddAck(e.pendingAcks, Decode(bytes).value.sequence)), Decode(bytes).value);
    }
  }

  lemma HandleTime(e: Endpoint, p: Packet)
    requires WfStats(e.stats)
    ensures Handle(e, p).currentTime == e.currentTime
  {
    hide WfStats, AckAll, ProcessEntries, UProcessMessages, RR.ProcessSlice, U.UProcessSlice, NewAcks;
    if p.Ack? {
      AckAllTime(e, NewAcks(e.sentPackets, p.ackRanges));
    }
  }

  lemma {:induction false} AckAllTime(e: Endpoint, ss: seq<nat>)
    requires WfStats(e.stats)
    ensures AckAll(e, ss).currentTime == e.currentTime
  {
    hide WfStats, AckOne;
    if ss != [] {
      AckAllTime(e, ss[..|ss| - 1]);
      AckOneTime(AckAll(e, ss[..|ss| - 1]), ss[|ss| - 1]);
    }
  }

  lemma AckOneTime(e: Endpoint, q: nat)
    requires WfStats(e.stats)
    ensures AckOne(e, q).currentTime == e.currentTime
  {
    hide WfStats, CountAcked, AckMessages, RS.AckSlice;
  }

  lemma StepCounts(s: System, s': System, j: nat)
    requires SysInv(s) && Step(s, s') && Fresh(s.x.sentPackets, s.x.currentTime) && j < SIZE && Alive(s'.x)
    ensures WfStats(s.x.stats) && WfStats(s'.x.stats) && Alive(s.x)
    ensures Counts(s.x, s'.x, j) && Fresh(s'.x.sentPackets, s'.x.currentTime)
  {
    hide SysInv, Act, Enabled, Counts, Fresh, LossInv;
    LossOf(s);
    LossParts(s.x);
    if a :| Enabled(s, a) && s' == Act(s, a) {
      ActCounts(s, a, j);
    } else {
      var b :| Enabled(Swap(s), b) && s' == Swap(Act(Swap(s), b));
      ActKeepsPeer(Swap(s), b);
      SameCounts(s.x, s'.x, j);
    }
  }

  lemma StepAlive(s: System, s': System)
    requires SysInv(s) && Step(s, s') && Alive(s'.x)
    ensures Alive(s.x)
  {
    hide SysInv, Act, Enabled;
    if a :| Enabled(s, a) && s' == Act(s, a) {
      ActAlive(s, a);
    } else {
      var b :| Enabled(Swap(s), b) && s' == Swap(Act(Swap(s), b));
      ActKeepsPeer(Swap(s), b);
    }
  }

  lemma ActAlive(s: System, a: Action)
    requires SysInv(s) && Enabled(s, a) && Alive(Act(s, a).x)
    ensures Alive(s.x)
  {
    hide SysInv, LossInv, WfEndpoint, SendMessage, ReceiveMessage, GetPackets, ProcessPacket, Update;
    LossOf(s);
    match a {
      case DoSend(c, m) => SendFrameOf(s.x, c, m);
      case DoReceive(c) => ReceiveFrameOf(s.x, c);
      case DoUpdate(d) => UpdateStatus(s.x, d);
      case DoTick =>
        if !Alive(s.x) {
          DeadTick(s.x);
        }
      case DoDeliver(i) => ProcessTime(s.x, s.yx.wire[i]);
      case _ =>
    }
  }

  lemma InitialExact(run: seq<System>, j: nat)
    requires |run| == 1 && Initial(run[0]) && j < SIZE
    ensures WfStats(run[0].x.stats) && Exact(run, j) && Fresh(run[0].x.sentPackets, run[0].x.currentTime)
  {
    hide Index, OrderOk;
    TrackedNone(map[], 0, j);
  }

  lemma ExactStep(run: seq<System>, j: nat)
    requires |run| > 1 && j < SIZE && WfStats(run[|run| - 2].x.stats) && WfStats(Last(run).x.stats)
    requires Exact(run[..|run| - 1], j) && Counts(run[|run| - 2].x, Last(run).x, j)
    ensures Exact(run, j)
  {
    hide Index, Tracked, Removed, WfStats;
    var m := |run| - 1;
    assert Last(run[..m]) == run[m - 1];
  }

  /**
   In every run, as long as the endpoint is up, for each slot since it was last entered: the
   counters are the packets sent and acknowledged in it, and each packet sent was
   acknowledged, given up as time passed, or is still tracked.
   */
  lemma {:induction false} CountersAreExact(run: seq<System>, j: nat)
    requires IsRun(run) && j < SIZE && Alive(Last(run).x)
    ensures WfStats(Last(run).x.stats) && Exact(run, j) && Fresh(Last(run).x.sentPackets, Last(run).x.currentTime)
  {
    hide Step, SysInv, Exact, Counts, Fresh, WfStats;
    var m := |run| - 1;
    if m == 0 {
      InitialExact(run, j);
    } else {
      hide Initial;
      RunInv(run[..m]);
      assert Step(run[m - 1], run[m - 1 + 1]);
      StepAlive(run[m - 1], run[m]);
      CountersAreExact(run[..m], j);
      StepCounts(run[m - 1], run[m], j);
      ExactStep(run, j);
    }
  }

  // ---------------------------------------------------------------- the estimate

  /** Per slot, the packets sent since it was entered. */
  ghost function SentPerSlot(run: seq<System>): (slots: seq<nat>)
    requires |run| > 0
    ensures |slots| == SIZE
  {
    seq(SIZE, j requires 0 <= j < SIZE => SentIn(run, j))
  }

  /** Per slot, the ones given up or still tracked. */
  ghost function LostPerSlot(run: seq<System>): (slots: seq<nat>)
    requires |run| > 0
    ensures |slots| == SIZE
  {
    var x := Last(run).x;
    seq(SIZE, j requires 0 <= j < SIZE => ExpiredIn(run, j) + Tracked(x.sentPackets, x.packetSequence, j))
  }

  lemma {:induction false} SumAdds(a: seq<nat>, b: seq<nat>, c: seq<nat>)
    requires |a| == |b| == |c| && forall i :: 0 <= i < |a| ==> a[i] + b[i] == c[i]
    ensures Sum(a) + Sum(b) == Sum(c)
  {
    if a != [] {
      SumAdds(a[..|a| - 1], b[..|b| - 1], c[..|c| - 1]);
    }
  }

  lemma SettledAdds(a: seq<nat>, b: seq<nat>, c: seq<nat>, current: nat)
    requires |a| == |b| == |c| == SIZE && current < SIZE && forall i :: 0 <= i < SIZE ==> a[i] + b[i] == c[i]
    ensures Sum(Settled(a, current)) + Sum(Settled(b, current)) == Sum(Settled(c, current))
  {
    SumAdds(Settled(a, current), Settled(b, current), Settled(c, current));
  }

  lemma SlotsAreExact(run: seq<System>)
    requires IsRun(run) && Alive(Last(run).x)
    ensures WfStats(Last(run).x.stats) && Last(run).x.stats.sent == SentPerSlot(run)
    ensures forall j :: 0 <= j < SIZE ==> Last(run).x.stats.acked[j] + LostPerSlot(run)[j] == SentPerSlot(run)[j]
  {
    hide Step, Initial, SentIn, AckedIn, ExpiredIn, Tracked, Fresh;
    CountersAreExact(run, 0);
    forall j | 0 <= j < SIZE
      ensures Last(run).x.stats.sent[j] == SentPerSlot(run)[j]
      ensures Last(run).x.stats.acked[j] + LostPerSlot(run)[j] == SentPerSlot(run)[j]
    {
      CountersAreExact(run, j);
    }
  }

  /**
   In every run the estimate is the share of the settled packets that were given up or are
   still tracked; in particular it is zero exactly if all of them were acknowledged in time.
   */
  lemma LossIsLostShare(run: seq<System>)
    requires IsRun(run) && Alive(Last(run).x)
    ensures WfStats(Last(run).x.stats)
    ensures var stats := Last(run).x.stats;
      var sent, lost := Sum(Settled(SentPerSlot(run), stats.current)), Sum(Settled(LostPerSlot(run), stats.current));
      && PacketLoss(stats) * sent as real == lost as real
      && (PacketLoss(stats) == 0.0 <==> lost == 0)
  {
    hide Step, Initial, SentPerSlot, LostPerSlot, Settled, Sum, PacketLoss;
    SlotsAreExact(run);
    var stats, sent, lost := Last(run).x.stats, SentPerSlot(run), LostPerSlot(run);
    SettledAdds(stats.acked, lost, sent, stats.current);
    if Sum(Settled(sent, stats.current)) > 0 {
      LossIsUnackedShare(stats);
    } else {
      NoLoss(stats);
    }
  }

  lemma NoLoss(stats: StatsState)
    requires WfStats(stats) && Sum(Settled(stats.sent, stats.current)) == 0
    ensures PacketLoss(stats) == 0.0
  {
    hide Sum, Settled, SettledSum;
    SettledSumIsSum(stats.sent, stats.current);
  }
}
