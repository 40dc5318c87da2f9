/**
 Resend timers never lie in the future, so the time differences that
 `get_packets_to_send` forms (renet/src/channel/reliable.rs) do not underflow.
 */
module Timers {
  import opened Common
  import opened AckRanges
  import opened Wire
  import opened Connection
  import opened Delivery
  import opened Theorems
  import RS = ReliableSend
  import SS = SendScheduling
  import RR = ReliableReceive
  import U = Unreliable

  ghost predicate Past(t: Option<Time>, now: Time) {
    t.None? || t.value <= now
  }

  ghost predicate MessagePast(u: RS.Unacked, now: Time) {
    match u
    case Small(_, lastSent) => Past(lastSent, now)
    case Sliced(_, _, _, _, _, lastSents) => forall i :: 0 <= i < |lastSents| ==> Past(lastSents[i], now)
  }

  ghost predicate AllPast(unacked: map<nat, RS.Unacked>, now: Time) {
    forall id :: id in unacked ==> MessagePast(unacked[id], now)
  }

  ghost predicate ChannelsPast(sendR: map<byte, RS.SendState>, now: Time) {
    forall c :: c in sendR ==> AllPast(sendR[c].unacked, now)
  }

  // ---------------------------------------------------------------- one channel

  lemma SendPast(s: RS.SendState, m: Message, now: Time)
    requires AllPast(s.unacked, now) && RS.SendMessage(s, m).Some?
    ensures AllPast(RS.SendMessage(s, m).value.unacked, now)
  {
  }

  lemma AckPast(s: RS.SendState, id: nat, index: nat, now: Time)
    requires AllPast(s.unacked, now)
    ensures RS.AckMessage(s, id).Acked? ==> AllPast(RS.AckMessage(s, id).state.unacked, now)
    ensures RS.AckSlice(s, id, index).Acked? ==> AllPast(RS.AckSlice(s, id, index).state.unacked, now)
  {
  }

  lemma {:induction false} AckMessagesPast(s: RS.SendState, ids: seq<nat>, now: Time)
    requires AllPast(s.unacked, now)
    ensures AckMessages(s, ids).Acked? ==> AllPast(AckMessages(s, ids).state.unacked, now)
    decreases |ids|
  {
    hide AllPast, RS.AckMessage;
    if ids != [] && RS.AckMessage(s, ids[0]).Acked? {
      AckPast(s, ids[0], 0, now);
      AckMessagesPast(RS.AckMessage(s, ids[0]).state, ids[1..], now);
    }
  }

  lemma {:induction false} SlicesPast(b: SS.Batch, s: RS.SendState, now: Time, id: nat, u: RS.Unacked, j: nat)
    requires RS.WfUnacked(u) && u.Sliced? && j <= u.numSlices && MessagePast(u, now)
    ensures MessagePast(SS.SliceScan(b, s, now, id, u, j).message, now)
  {
    hide SS.EmitSlice, SS.Rotated;
    if j > 0 {
      SlicesPast(b, s, now, id, u, j - 1);
    }
  }

  lemma {:induction false} ScanPast(s: RS.SendState, sequence: nat, available: nat, now: Time, k: nat)
    requires SS.AllWf(s.unacked) && AllPast(s.unacked, now)
    ensures AllPast(SS.Scan(s, sequence, available, now, k).unacked, now)
  {
    hide SS.SliceScan, RS.WfUnacked, SS.Collect;
    if k > 0 {
      ScanPast(s, sequence, available, now, k - 1);
      if k - 1 in s.unacked && s.unacked[k - 1].Sliced? {
        var u := s.unacked[k - 1];
        SlicesPast(SS.Scan(s, sequence, available, now, k - 1).batch, s, now, k - 1, u, u.numSlices);
      }
    }
  }

  // ---------------------------------------------------------------- an endpoint

  lemma SendMessagePast(e: Endpoint, c: byte, m: Message)
    requires ChannelsPast(e.sendR, e.currentTime) && (c in e.sendR || c in e.sendU)
    ensures var r := SendMessage(e, c, m); ChannelsPast(r.sendR, r.currentTime)
  {
    if c in e.sendR && RS.SendMessage(e.sendR[c], m).Some? {
      SendPast(e.sendR[c], m, e.currentTime);
    }
    hide AllPast, RS.SendMessage;
  }

  lemma UpdatePast(e: Endpoint, duration: Time)
    requires WfEndpoint(e) && ChannelsPast(e.sendR, e.currentTime)
    ensures var r := Update(e, duration); ChannelsPast(r.sendR, r.currentTime)
  {
    hide WfEndpoint, Expire, DiscardAll;
  }

  lemma AckOnePast(e: Endpoint, s: nat)
    requires Stats.WfStats(e.stats) && ChannelsPast(e.sendR, e.currentTime)
    ensures var r := AckOne(e, s); ChannelsPast(r.sendR, r.currentTime) && r.currentTime == e.currentTime
  {
    if s in e.sentPackets {
      match e.sentPackets[s].info {
        case ReliableMessages(c, ids) =>
          if c in e.sendR {
            AckMessagesPast(e.sendR[c], ids, e.currentTime);
          }
        case ReliableSliceMessage(c, id, i) =>
          if c in e.sendR {
            AckPast(e.sendR[c], id, i, e.currentTime);
          }
        case _ =>
      }
    }
    hide AllPast, AckMessages, RS.AckSlice, AckRanges.AckedLargest, Stats.CountAcked;
  }

  lemma {:induction false} AckAllPast(e: Endpoint, ss: seq<nat>)
    requires Stats.WfStats(e.stats) && ChannelsPast(e.sendR, e.currentTime)
    ensures var r := AckAll(e, ss); ChannelsPast(r.sendR, r.currentTime)
  {
    hide ChannelsPast, AckOne;
    if ss != [] {
      AckAllPast(e, ss[..|ss| - 1]);
      AckOnePast(AckAll(e, ss[..|ss| - 1]), ss[|ss| - 1]);
    }
  }

  lemma ProcessPast(e: Endpoint, bytes: seq<byte>)
    requires Stats.WfStats(e.stats) && ChannelsPast(e.sendR, e.currentTime)
    ensures var r := ProcessPacket(e, bytes); ChannelsPast(r.sendR, r.currentTime)
  {
    hide ChannelsPast, Decode, AddAck, ProcessEntries, UProcessMessages, RR.ProcessSlice, U.UProcessSlice, NewAcks, AckAll,
      Stats.WfStats;
    var d := Decode(bytes);
    if Alive(e) && d.Ok? && d.value.Ack? {
      var noted := e.(pendingAcks := AddAck(e.pendingAcks, d.value.sequence));
      AckAllPast(noted, NewAcks(noted.sentPackets, d.value.ackRanges));
    }
  }

  lemma GatherOnePast(g: Gathered, now: Time, order: ChannelOrder)
    requires WfGathered(g) && Exists(order, g.sendR.Keys, g.sendU.Keys) && ChannelsPast(g.sendR, now)
    ensures ChannelsPast(GatherOne(g, now, order).sendR, now)
  {
    hide SS.Scan, RS.WfSend, U.WfUSend, U.UGetPackets, AllPast;
    match order {
      case Reliable(c) =>
        assert SS.AllWf(g.sendR[c].unacked) by { HeldWf(g, c); }
        ScanPast(g.sendR[c], g.sequence, g.available, now, g.sendR[c].nextId);
      case Unreliable(c) =>
    }
  }

  lemma {:induction false} GatherPast(e: Endpoint, k: nat)
    requires WfEndpoint(e) && k <= |e.sendOrder| && ChannelsPast(e.sendR, e.currentTime)
    ensures ChannelsPast(Gather(e, k).sendR, e.currentTime)
  {
    hide WfEndpoint, WfGathered, GatherOne, ChannelsPast;
    if k > 0 {
      GatherPast(e, k - 1);
      OrderExists(e, k - 1);
      GatherOnePast(Gather(e, k - 1), e.currentTime, e.sendOrder[k - 1]);
    }
  }

  lemma TickPast(e: Endpoint)
    requires WfEndpoint(e) && ChannelsPast(e.sendR, e.currentTime)
    ensures var r := GetPackets(e).endpoint; ChannelsPast(r.sendR, r.currentTime)
  {
    hide WfEndpoint, Gather, AllPackets, Record, SerializeAll, ChannelsPast, Stats.CountSent;
    GatherPast(e, |e.sendOrder|);
  }

  // ---------------------------------------------------------------- runs

  ghost predicate SystemPast(s: System) {
    ChannelsPast(s.x.sendR, s.x.currentTime) && ChannelsPast(s.y.sendR, s.y.currentTime)
  }

  lemma ActPast(s: System, a: Action)
    requires SysInv(s) && Enabled(s, a) && SystemPast(s)
    ensures SystemPast(Act(s, a))
  {
    hide ChannelsPast, SysInv, WfEndpoint, SendMessage, ReceiveMessage, GetPackets, ProcessPacket, Update;
    ActKeepsPeer(s, a);
    match a {
      case DoSend(c, m) => SendMessagePast(s.x, c, m);
      case DoReceive(c) => ReceivePast(s.x, c);
      case DoUpdate(d) => UpdatePast(s.x, d);
      case DoTick => TickPast(s.x);
      case DoDeliver(i) => DeliverPast(s, i);
      case _ =>
    }
  }

  lemma ReceivePast(e: Endpoint, c: byte)
    requires WfEndpoint(e) && (c in e.recvR || c in e.recvU)
    ensures var r := ReceiveMessage(e, c).endpoint; r.sendR == e.sendR && r.currentTime == e.currentTime
  {
    hide WfEndpoint, RR.Receive, U.UReceive;
  }

  lemma DeliverPast(s: System, i: nat)
    requires WfEndpoint(s.x) && i < |s.yx.wire| && ChannelsPast(s.x.sendR, s.x.currentTime)
    ensures var r := ProcessPacket(s.x, s.yx.wire[i]); ChannelsPast(r.sendR, r.currentTime)
  {
    hide ChannelsPast, ProcessPacket, RS.WfSend, U.WfUSend, RR.MemoryExact, UMemoryExact, Normal, Exists;
    ProcessPast(s.x, s.yx.wire[i]);
  }

  lemma StepPast(s: System, s': System)
    requires SysInv(s) && Step(s, s') && SystemPast(s)
    ensures SystemPast(s')
  {
    hide SysInv, Act, Enabled, ChannelsPast;
    SwapInv(s);
    if a :| Enabled(s, a) && s' == Act(s, a) {
      ActPast(s, a);
    } else {
      var b :| Enabled(Swap(s), b) && s' == Swap(Act(Swap(s), b));
      ActPast(Swap(s), b);
    }
  }

  /** In every run, at every moment, no resend timer lies in the future. */
  lemma {:induction false} TimersNeverAhead(run: seq<System>)
    requires IsRun(run)
    ensures SystemPast(Last(run))
  {
    var n := |run| - 1;
    if n == 0 {
      hide Step;
    } else {
      hide Step, Initial, SystemPast, SysInv;
      TimersNeverAhead(run[..n]);
      RunInv(run[..n]);
      assert Step(run[n - 1], run[n - 1 + 1]);
      StepPast(run[n - 1], run[n]);
    }
  }
}
