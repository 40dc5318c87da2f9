/**
 The turn of one reliable channel in a tick over all channels: its share of the byte budget
 (renet/src/remote_connection.rs), what it emits, and what the arrival of that achieves.
 */
module Turns {
  import opened Common
  import opened AckRanges
  import opened Wire
  import opened Connection
  import opened Direction
  import opened Delivery
  import opened Theorems
  import opened Progress
  import Slicing
  import RS = ReliableSend
  import SS = SendScheduling
  import RR = ReliableReceive
  import U = Unreliable

  // ---------------------------------------------------------------- the budget of a channel

  /** What a channel can take out of the byte budget at most. */
  ghost function Uses(e: Endpoint, order: ChannelOrder): nat
    requires Exists(order, e.sendR.Keys, e.sendU.Keys)
  {
    match order case Reliable(c) => e.sendR[c].memoryUsage case Unreliable(c) => e.sendU[c].memoryUsage
  }

  /** The same for the first `k` channels in configuration order. */
  ghost function Committed(e: Endpoint, k: nat): nat
    requires OrderOk(e) && k <= |e.sendOrder|
  {
    if k == 0 then 0 else Committed(e, k - 1) + Uses(e, e.sendOrder[k - 1])
  }

  ghost predicate NoMoreMemory(e: Endpoint, g: Gathered) {
    && (forall c :: c in g.sendR ==> c in e.sendR && g.sendR[c].memoryUsage == e.sendR[c].memoryUsage)
    && (forall c :: c in g.sendU ==> c in e.sendU && g.sendU[c].memoryUsage <= e.sendU[c].memoryUsage)
  }

  lemma ReliableUses(s: RS.SendState, first: nat, available: nat, now: Time)
    requires RS.WfSend(s)
    ensures available - s.memoryUsage <= SS.GetPackets(s, first, available, now).available
  {
    hide SS.BatchItems;
    SS.ScanItems(s, first, available, now, s.nextId, SS.SmallItem(0));
  }

  lemma UnreliableUses(s: U.USend, first: nat, available: nat)
    requires U.WfUSend(s)
    ensures available - s.memoryUsage <= U.UGetPackets(s, first, available).available
  {
    U.UTickSendsKept(s, first, available);
    KeptBytes(s.queue, available, |s.queue|);
    assert s.queue[..|s.queue|] == s.queue;
  }

  lemma {:induction false} KeptBytes(queue: seq<Message>, available: nat, k: nat)
    requires k <= |queue|
    ensures QueueBytes(U.Kept(queue, available, k)) <= QueueBytes(queue[..k])
  {
    if k > 0 {
      KeptBytes(queue, available, k - 1);
      assert queue[..k] == queue[..k - 1] + [queue[k - 1]];
      QueueBytesAppend(queue[..k - 1], queue[k - 1]);
      QueueBytesAppend(U.Kept(queue, available, k - 1), queue[k - 1]);
    }
  }

  lemma GatherOneBudget(e: Endpoint, g: Gathered, now: Time, order: ChannelOrder)
    requires WfGathered(g) && NoMoreMemory(e, g)
    requires Exists(order, g.sendR.Keys, g.sendU.Keys) && Exists(order, e.sendR.Keys, e.sendU.Keys)
    ensures var g' := GatherOne(g, now, order);
      NoMoreMemory(e, g') && g.available - Uses(e, order) <= g'.available
  {
    match order {
      case Reliable(c) =>
        assert RS.WfSend(g.sendR[c]);
        SS.GetPacketsWf(g.sendR[c], g.sequence, g.available, now);
        ReliableUses(g.sendR[c], g.sequence, g.available, now);
        hide WfGathered, SS.GetPackets, RS.WfSend;
      case Unreliable(c) =>
        assert U.WfUSend(g.sendU[c]);
        U.UTickIsSound(g.sendU[c], g.sequence, g.available);
        UnreliableUses(g.sendU[c], g.sequence, g.available);
        hide WfGathered, U.UGetPackets, U.WfUSend;
    }
  }

  /** When the turn of channel `k` comes, no more than what is committed before it is gone. */
  lemma {:induction false} GatherBudget(e: Endpoint, k: nat)
    requires WfEndpoint(e) && OrderOk(e) && k <= |e.sendOrder|
    ensures NoMoreMemory(e, Gather(e, k)) && e.bytesPerTick - Committed(e, k) <= Gather(e, k).available
  {
    hide WfEndpoint, WfGathered, GatherOne;
    if k > 0 {
      GatherBudget(e, k - 1);
      OrderExists(e, k - 1);
      GatherOneBudget(e, Gather(e, k - 1), e.currentTime, e.sendOrder[k - 1]);
    }
  }

  /** A channel that had no turn yet is as it was. */
  lemma {:induction false} GatherUntouched(e: Endpoint, k: nat, c: byte)
    requires WfEndpoint(e) && k <= |e.sendOrder| && c in e.sendR
    requires forall j :: 0 <= j < k ==> e.sendOrder[j] != Reliable(c)
    ensures Gather(e, k).sendR[c] == e.sendR[c]
  {
    hide WfEndpoint, WfGathered, SS.GetPackets, U.UGetPackets;
    if k > 0 {
      GatherUntouched(e, k - 1, c);
      OrderExists(e, k - 1);
    }
  }

  /** The packets of a turn are among those of the tick. */
  lemma {:induction false} GatherWithin(e: Endpoint, k: nat, n: nat)
    requires WfEndpoint(e) && k <= n <= |e.sendOrder|
    ensures Gather(e, k).packets <= Gather(e, n).packets
  {
    hide WfEndpoint, WfGathered, GatherOne;
    if k < n {
      GatherWithin(e, k, n - 1);
      OrderExists(e, n - 1);
      GatherOneExtends(Gather(e, n - 1), e.currentTime, e.sendOrder[n - 1]);
    }
  }

  lemma GatherOneExtends(g: Gathered, now: Time, order: ChannelOrder)
    requires WfGathered(g) && Exists(order, g.sendR.Keys, g.sendU.Keys)
    ensures g.packets <= GatherOne(g, now, order).packets
  {
    hide SS.GetPackets, U.UGetPackets, U.WfUSend, RS.WfSend;
  }

  // ---------------------------------------------------------------- the packets of a turn

  /** What channel `c`, at place `k` of the configuration, emits in this tick. */
  ghost function TurnPackets(e: Endpoint, c: byte, k: nat): seq<Packet>
    requires WfEndpoint(e) && k < |e.sendOrder| && c in e.sendR
  {
    var g := Gather(e, k);
    SS.GetPackets(g.sendR[c], g.sequence, g.available, e.currentTime).packets
  }

  lemma TurnWithin(e: Endpoint, c: byte, k: nat)
    requires WfEndpoint(e) && k < |e.sendOrder| && e.sendOrder[k] == Reliable(c) && c in e.sendR
    ensures Within(TurnPackets(e, c, k), AllPackets(e))
  {
    hide WfEndpoint, WfGathered, SS.GetPackets, U.UGetPackets;
    OrderExists(e, k);
    GatherWithin(e, k + 1, |e.sendOrder|);
    var ps, all := Gather(e, k + 1).packets, AllPackets(e);
    assert ps == Gather(e, k).packets + TurnPackets(e, c, k);
    assert ps <= all;
    assert forall p :: p in TurnPackets(e, c, k) ==> p in ps;
    assert forall p :: p in ps ==> p in all by { PrefixMembers(ps, all); }
  }

  lemma PrefixMembers<T>(a: seq<T>, b: seq<T>)
    requires a <= b
    ensures forall x :: x in a ==> x in b
  {
    forall x | x in a
      ensures x in b
    {
      var i :| 0 <= i < |a| && a[i] == x;
      assert b[i] == x;
    }
  }

  /** The packet belongs to reliable channel `c`. */
  predicate For(p: Packet, c: byte) {
    (p.SmallReliable? || p.ReliableSlice?) && p.channelId == c
  }

  /** The packets `lo..hi` of the log that are for `c` have arrived. */
  ghost predicate ArrivedFrom(r: RR.RecvState, log: seq<Packet>, c: byte, lo: nat, hi: nat) {
    forall i :: lo <= i < hi && i < |log| && For(log[i], c) ==> Arrived(r, log[i])
  }

  /**
   Reliable channel `c`, at place `k` of the configuration, gets its full turn in the next
   tick: all its timers are due, and the byte budget covers the channels before it and itself.
   */
  ghost predicate FullTurn(e: Endpoint, c: byte, k: nat) {
    && c in e.sendR && k < |e.sendOrder| && e.sendOrder[k] == Reliable(c)
    && (forall j :: 0 <= j < k ==> e.sendOrder[j] != Reliable(c))
    && WfEndpoint(e) && OrderOk(e) && Committed(e, k) + e.sendR[c].memoryUsage + SLICE_SIZE <= e.bytesPerTick
    && AllDue(e.sendR[c], e.currentTime)
  }

  /** The state of the channel when its turn comes. */
  lemma TurnState(e: Endpoint, c: byte, k: nat)
    requires FullTurn(e, c, k)
    ensures var g := Gather(e, k);
      && c in g.sendR && g.sendR[c] == e.sendR[c] && g.available >= e.sendR[c].memoryUsage + SLICE_SIZE
      && RS.WfSend(e.sendR[c])
      && TurnPackets(e, c, k) == SS.GetPackets(e.sendR[c], g.sequence, g.available, e.currentTime).packets
  {
    assert RS.WfSend(e.sendR[c]);
    hide WfEndpoint, SS.GetPackets, Gather, OrderOk, Committed, RS.WfSend, NoMoreMemory, AllDue;
    GatherUntouched(e, k, c);
    GatherBudget(e, k);
  }

  /** What the channel emits in its turn is its own and goes into the tick. */
  lemma TurnIsFor(s: System, c: byte, k: nat)
    requires SysInv(s) && FullTurn(s.x, c, k)
    ensures forall p :: p in TurnPackets(s.x, c, k) ==> For(p, c) && p in AllPackets(s.x)
  {
    hide WfEndpoint, SysInv, AllPackets, AllDue, Holds, Known, SS.GetPackets, ChannelPacket, Gather, OrderOk, Committed, RS.WfSend,
      TurnPackets;
    TurnState(s.x, c, k);
    TurnWithin(s.x, c, k);
    SenderAt(s, c);
    var g := Gather(s.x, k);
    ChannelTickCarries(s.x.sendR[c], c, At(s.hxy.sent, c), g.sequence, g.available, s.x.currentTime);
    forall p | p in TurnPackets(s.x, c, k)
      ensures For(p, c)
    {
      CarriedIsFor(c, At(s.hxy.sent, c), p);
    }
  }

  lemma CarriedIsFor(c: byte, sent: seq<Message>, p: Packet)
    requires ChannelPacket(c, sent, p)
    ensures For(p, c)
  {
  }

  /** The packets of the turn are in the log after the tick, so the deliveries bring them all. */
  lemma TurnArrives(turn: seq<Packet>, all: seq<Packet>, log: seq<Packet>, c: byte, r: RR.RecvState)
    requires forall p :: p in turn ==> For(p, c) && p in all
    requires ArrivedFrom(r, log + all, c, |log|, |log + all|)
    ensures AllArrived(r, turn)
  {
    hide Arrived;
    forall p | p in turn
      ensures Arrived(r, p)
    {
      var i :| 0 <= i < |all| && all[i] == p;
      assert (log + all)[|log| + i] == p;
    }
  }

  /** Once everything of the turn has arrived, each message sent before has. */
  lemma TurnBrings(s: System, c: byte, k: nat, r': RR.RecvState, id: nat)
    requires SysInv(s) && FullTurn(s.x, c, k) && c in s.y.recvR && RR.Grows(s.y.recvR[c], r')
    requires AllArrived(r', TurnPackets(s.x, c, k)) && id < |At(s.hxy.sent, c)|
    requires id in r'.slices ==> Slicing.Partial(r'.slices[id], At(s.hxy.sent, c)[id])
    ensures RR.Accepted(r', id)
  {
    hide WfEndpoint, SysInv, AllDue, Holds, Known, SS.GetPackets, Gather, AllArrived, TurnPackets, RR.Grows, Committed, OrderOk,
      RS.WfSend, Slicing.Partial, RR.Accepted;
    TurnState(s.x, c, k);
    SenderAt(s, c);
    KnownHere(s.x.sendR[c], s.y.recvR, c);
    var g := Gather(s.x, k);
    AllArrive(s.x.sendR[c], g.sequence, g.available, s.x.currentTime, s.y.recvR[c], r', c, At(s.hxy.sent, c), id);
  }

  lemma PartialAt(r: RR.RecvState, sent: seq<Message>, delivered: seq<nat>, id: nat)
    requires RR.RecvInv(r, sent, delivered) && id in r.slices
    ensures id < |sent| && Slicing.Partial(r.slices[id], sent[id])
  {
    hide RR.MemoryExact, RR.Ledger;
  }

  lemma FullTurnIs(e: Endpoint, c: byte, k: nat)
    requires FullTurn(e, c, k)
    ensures c in e.sendR && WfEndpoint(e) && k < |e.sendOrder|
  {
  }
}
