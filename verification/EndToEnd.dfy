/**
 Progress of two endpoints: from any reachable state that allows it, one tick, the arrival
 of its payloads and enough calls of `receive_message` hand out everything sent, exactly if
 no message has more than 1,000,000 slices.
 */
module EndToEnd {
  import opened Common
  import opened AckRanges
  import opened Wire
  import opened Connection
  import opened Direction
  import opened Delivery
  import opened Theorems
  import opened Progress
  import opened Oversized
  import opened Turns
  import opened ProcessedTurns
  import Slicing
  import Stats
  import RS = ReliableSend
  import RR = ReliableReceive
  import U = Unreliable
  import DR = DirectionReceive

  // ---------------------------------------------------------------- paths

  /** A sequence of steps. */
  ghost predicate IsPath(p: seq<System>, s: System, t: System) {
    && |p| > 0 && p[0] == s && p[|p| - 1] == t
    && forall i :: 0 <= i < |p| - 1 ==> Step(p[i], p[i + 1])
  }

  ghost predicate Leads(s: System, t: System) {
    exists p :: IsPath(p, s, t)
  }

  lemma LeadsSelf(s: System)
    ensures Leads(s, s)
  {
    assert IsPath([s], s, s);
  }

  lemma LeadsOn(s: System, t: System, u: System)
    requires Leads(s, t) && Step(t, u)
    ensures Leads(s, u)
  {
    hide Step;
    var p :| IsPath(p, s, t);
    assert IsPath(p + [u], s, u);
  }

  lemma LeadsFrom(s: System, t: System, u: System)
    requires Step(s, t) && Leads(t, u)
    ensures Leads(s, u)
  {
    hide Step;
    var p :| IsPath(p, t, u);
    assert IsPath([s] + p, s, u);
  }

  lemma LeadsAcross(s: System, t: System, u: System)
    requires Leads(s, t) && Leads(t, u)
    ensures Leads(s, u)
  {
    hide Step;
    var p :| IsPath(p, s, t);
    var q :| IsPath(q, t, u);
    var r := p + q[1..];
    forall i | 0 <= i < |r| - 1
      ensures Step(r[i], r[i + 1])
    {
      if i < |p| - 1 {
        assert Step(p[i], p[i + 1]);
      } else {
        var j := i - (|p| - 1);
        assert Step(q[j], q[j + 1]);
      }
    }
    assert IsPath(r, s, u);
  }

  lemma XStep(s: System, a: Action)
    requires Enabled(s, a)
    ensures Step(s, Act(s, a))
  {
    hide Act, Enabled;
  }

  lemma YStep(s: System, a: Action)
    requires Enabled(Swap(s), a)
    ensures Step(s, Swap(Act(Swap(s), a)))
  {
    hide Act, Enabled;
  }

  // ---------------------------------------------------------------- deliveries

  lemma ForIsChannelPacket(h: History, p: Packet, c: byte)
    requires Genuine(h, p) && For(p, c)
    ensures ChannelPacket(c, At(h.sent, c), p)
  {
  }

  ghost predicate AllSent(sent: seq<Message>) {
    forall i :: 0 <= i < |sent| ==> Sendable(sent[i])
  }

  lemma SendableDecodes(h: History, p: Packet, c: byte)
    requires Genuine(h, p) && For(p, c) && Encodable(p) && AllSent(At(h.sent, c))
    ensures Decode(Encode(p)) == Ok(p)
  {
    hide Encode, Decode, Encodable;
    DR.GenuineDecodes(h, p);
  }

  /** A packet of the channel changes nothing but the channel and the acknowledgements. */
  lemma ProcessTakes(y: Endpoint, p: Packet, c: byte, h: History)
    requires Stats.WfStats(y.stats) && Alive(y) && c in y.recvR && Genuine(h, p) && For(p, c) && Encodable(p)
    requires AllSent(At(h.sent, c)) && Take(y.recvR[c], p).error.None?
    ensures var y' := ProcessPacket(y, Encode(p));
      y'.recvR == y.recvR[c := Take(y.recvR[c], p).state] && y'.status == y.status
  {
    hide Encode, Decode, Encodable, Genuine, ProcessEntries, RR.ProcessSlice, Stats.WfStats, AddAck;
    SendableDecodes(h, p, c);
  }

  /** What holds between the deliveries. */
  ghost predicate Receiving(s: System, c: byte) {
    && SysInv(s) && Alive(s.y) && c in s.y.recvR && Roomy(s.y.recvR[c], At(s.hxy.sent, c)) && AllSent(At(s.hxy.sent, c))
  }

  /** What deliveries keep. */
  ghost predicate Keeps(s: System, t: System, c: byte) {
    && t.x == s.x && t.xy == s.xy && t.hxy.sent == s.hxy.sent && t.hxy.out == s.hxy.out
    && c in s.y.recvR && c in t.y.recvR && RR.Grows(s.y.recvR[c], t.y.recvR[c])
    && t.y.recvR[c].oldest == s.y.recvR[c].oldest && t.y.recvR[c].maxMemory == s.y.recvR[c].maxMemory
    && t.y.recvR[c].order.Ordered? == s.y.recvR[c].order.Ordered?
  }

  ghost function Delivered(s: System, i: nat): System
    requires Enabled(Swap(s), DoDeliver(i))
  {
    Swap(Act(Swap(s), DoDeliver(i)))
  }

  lemma ReceivingParts(s: System, c: byte)
    requires Receiving(s, c)
    ensures WfEndpoint(s.y) && Stats.WfStats(s.y.stats) && SenderOk(s.x, s.xy, s.hxy)
    ensures RR.RecvInv(s.y.recvR[c], At(s.hxy.sent, c), At(s.hxy.delivered, c))
  {
    hide WfEndpoint, SysInv, RR.RecvInv, SenderOk, Roomy, AllSent, OutOk;
    SwapInv(s);
    InvIsWf(Swap(s));
    SenderPart(s);
    ReceiverAt(s, c);
    WfStatsOf(s.y);
  }

  lemma RoomyLater(a: RR.RecvState, b: RR.RecvState, sent: seq<Message>)
    requires Roomy(a, sent) && b.oldest == a.oldest && b.maxMemory == a.maxMemory && b.order.Ordered? == a.order.Ordered?
    ensures Roomy(b, sent)
  {
  }

  /** One packet of the channel is delivered and taken in. */
  lemma DeliverOne(s: System, c: byte, i: nat)
    requires Receiving(s, c) && i < |s.xy.wire| <= |s.xy.log| && For(s.xy.log[i], c)
    ensures Enabled(Swap(s), DoDeliver(i))
    ensures var t := Delivered(s, i);
      Step(s, t) && Receiving(t, c) && Keeps(s, t, c) && Arrived(t.y.recvR[c], s.xy.log[i])
  {
    hide WfEndpoint, SysInv, RR.RecvInv, SenderOk, Roomy, AllSent, RR.Grows, Stats.WfStats, Genuine, Encode, Encodable, Take,
      ProcessPacket, ChannelPacket, Arrived;
    ReceivingParts(s, c);
    WirePacket(s.x, s.xy, s.hxy, i);
    var p, r, sent := s.xy.log[i], s.y.recvR[c], At(s.hxy.sent, c);
    ForIsChannelPacket(s.hxy, p, c);
    TakeFits(r, c, sent, At(s.hxy.delivered, c), p);
    ProcessTakes(s.y, p, c, s.hxy);
    SwapInv(s);
    ActInv(Swap(s), DoDeliver(i));
    var t := Delivered(s, i);
    SwapInv(Act(Swap(s), DoDeliver(i)));
    RoomyLater(r, t.y.recvR[c], sent);
    YStep(s, DoDeliver(i));
  }

  lemma ArrivedLater(a: RR.RecvState, b: RR.RecvState, log: seq<Packet>, c: byte, lo: nat, hi: nat)
    requires ArrivedFrom(a, log, c, lo, hi) && RR.Grows(a, b)
    ensures ArrivedFrom(b, log, c, lo, hi)
  {
    hide RR.Grows, Arrived;
    forall i | lo <= i < hi && i < |log| && For(log[i], c)
      ensures Arrived(b, log[i])
    {
      GrowsArrived(a, b, log[i]);
    }
  }

  lemma KeepsOn(s: System, t: System, u: System, c: byte)
    requires Keeps(s, t, c) && Keeps(t, u, c)
    ensures Keeps(s, u, c)
  {
    hide RR.Grows;
    DR.GrowsTransitive(s.y.recvR[c], t.y.recvR[c], u.y.recvR[c]);
  }

  /** The deliveries from `s` have reached `t`. */
  ghost predicate Reached(s: System, t: System, c: byte, lo: nat, hi: nat) {
    && Leads(s, t) && Receiving(t, c) && Keeps(s, t, c)
    && c in t.y.recvR && ArrivedFrom(t.y.recvR[c], s.xy.log, c, lo, hi)
  }

  lemma ArrivedSnoc(r: RR.RecvState, log: seq<Packet>, c: byte, lo: nat, hi: nat)
    requires ArrivedFrom(r, log, c, lo, hi) && hi < |log| && (For(log[hi], c) ==> Arrived(r, log[hi]))
    ensures ArrivedFrom(r, log, c, lo, hi + 1)
  {
    hide Arrived;
  }

  lemma KeepsLink(s: System, t: System, c: byte)
    requires Keeps(s, t, c)
    ensures t.xy == s.xy && c in s.y.recvR && c in t.y.recvR && RR.Grows(s.y.recvR[c], t.y.recvR[c])
  {
  }

  lemma DeliverNext(s: System, u: System, c: byte, lo: nat, hi: nat) returns (t: System)
    requires Reached(s, u, c, lo, hi) && hi < |s.xy.wire| <= |s.xy.log|
    ensures Reached(s, t, c, lo, hi + 1)
  {
    hide Receiving, RR.Grows, Arrived, Step, Leads, ArrivedFrom, Keeps, Delivered, Enabled;
    KeepsLink(s, u, c);
    if For(s.xy.log[hi], c) {
      DeliverOne(u, c, hi);
      t := Delivered(u, hi);
      LeadsOn(s, u, t);
      KeepsOn(s, u, t, c);
      KeepsLink(u, t, c);
      ArrivedLater(u.y.recvR[c], t.y.recvR[c], s.xy.log, c, lo, hi);
    } else {
      t := u;
    }
    ArrivedSnoc(t.y.recvR[c], s.xy.log, c, lo, hi);
  }

  /** All payloads from `lo` to `hi` that are for `c` are delivered in turn. */
  lemma {:induction false} DeliverRange(s: System, c: byte, lo: nat, hi: nat) returns (t: System)
    requires Receiving(s, c) && lo <= hi <= |s.xy.wire| <= |s.xy.log|
    ensures Reached(s, t, c, lo, hi)
    decreases hi - lo
  {
    if lo == hi {
      hide Receiving, RR.Grows, Step, Leads;
      t := s;
      LeadsSelf(s);
      KeepsSelf(s, c);
    } else {
      hide Reached, Receiving;
      var u := DeliverRange(s, c, lo, hi - 1);
      t := DeliverNext(s, u, c, lo, hi - 1);
    }
  }

  lemma KeepsSelf(s: System, c: byte)
    requires Receiving(s, c)
    ensures Keeps(s, s, c)
  {
    hide SysInv, Roomy, AllSent;
  }

  // ---------------------------------------------------------------- receiving

  /** Every message not handed out yet is ready. */
  ghost predicate Complete(s: System, c: byte) {
    && SysInv(s) && Alive(s.y) && c in s.y.recvR && s.y.recvR[c].order.Ordered?
    && s.y.recvR[c].oldest <= |At(s.hxy.sent, c)|
    && forall id :: s.y.recvR[c].oldest <= id < |At(s.hxy.sent, c)| ==> id in s.y.recvR[c].messages
  }

  ghost function Taken(s: System, c: byte): System
    requires Enabled(Swap(s), DoReceive(c))
  {
    Swap(Act(Swap(s), DoReceive(c)))
  }

  lemma ReceiveShape(y: Endpoint, h: History, c: byte)
    requires WfEndpoint(y) && Alive(y) && c in y.recvR && y.recvR[c].order.Ordered? && y.recvR[c].oldest in y.recvR[c].messages
    ensures var y' := ReceiveMessage(y, c).endpoint;
      && Alive(y') && y'.recvR.Keys == y.recvR.Keys
      && y'.recvR[c].order.Ordered? && y'.recvR[c].oldest == y.recvR[c].oldest + 1
      && y'.recvR[c].messages == y.recvR[c].messages - {y.recvR[c].oldest}
    ensures DR.NoteReceived(h, y, c).sent == h.sent
  {
    hide RS.WfSend, U.WfUSend, UMemoryExact, Normal, Stats.WfStats, Exists;
    RR.ReceiveMemory(y.recvR[c]);
    hide WfEndpoint, RR.MemoryExact;
  }

  lemma ReceiveOne(s: System, c: byte)
    requires Complete(s, c) && s.y.recvR[c].oldest < |At(s.hxy.sent, c)|
    ensures Enabled(Swap(s), DoReceive(c))
    ensures var t := Taken(s, c);
      && Step(s, t) && Complete(t, c) && t.hxy.sent == s.hxy.sent
      && t.y.recvR[c].oldest == s.y.recvR[c].oldest + 1
  {
    hide WfEndpoint, SysInv, ReceiveMessage, DR.NoteReceived;
    SwapInv(s);
    InvIsWf(Swap(s));
    ReceiveShape(s.y, s.hxy, c);
    ActInv(Swap(s), DoReceive(c));
    SwapInv(Act(Swap(s), DoReceive(c)));
    YStep(s, DoReceive(c));
  }

  /** Calls of `receive_message` until nothing is left. */
  lemma {:induction false} ReceiveRest(s: System, c: byte) returns (t: System)
    requires Complete(s, c)
    ensures Leads(s, t) && t.hxy.sent == s.hxy.sent && At(t.hxy.out, c) == At(s.hxy.sent, c)
    decreases |At(s.hxy.sent, c)| - s.y.recvR[c].oldest
  {
    if s.y.recvR[c].oldest == |At(s.hxy.sent, c)| {
      hide Step, SysInv;
      OrderedOut(s, c);
      LeadsSelf(s);
      t := s;
    } else {
      ReceiveOne(s, c);
      hide Step, Complete, Taken, Leads, Enabled;
      t := ReceiveRest(Taken(s, c), c);
      LeadsFrom(s, Taken(s, c), t);
    }
  }

  // ---------------------------------------------------------------- one tick

  /**
   The channel can make progress: both ends are up, it gets its full turn, the tick can be
   serialized, and the receiving channel is ordered and has memory.
   */
  ghost predicate Ready(s: System, c: byte, k: nat) {
    && Alive(s.x) && Alive(s.y) && FullTurn(s.x, c, k) && Alive(GetPackets(s.x).endpoint)
    && c in s.y.recvR && Roomy(s.y.recvR[c], At(s.hxy.sent, c))
  }

  lemma AliveLink(s: System)
    requires SysInv(s) && Alive(s.x)
    ensures |s.xy.wire| == |s.xy.log|
  {
    SenderPart(s);
    hide SysInv, WireOk, LogOk, Consecutive, TrackOk, ChannelsOk, SendROk, SendUOk;
  }

  lemma TickDelivers(s: System, c: byte, k: nat)
    requires SysInv(s) && Ready(s, c, k) && AllSent(At(s.hxy.sent, c))
    ensures Enabled(s, DoTick)
    ensures var t := Act(s, DoTick);
      && Step(s, t) && Receiving(t, c) && t.y == s.y && t.hxy.sent == s.hxy.sent && t.hxy.out == s.hxy.out
      && t.xy.log == s.xy.log + AllPackets(s.x) && |t.xy.wire| == |t.xy.log|
  {
    hide WfEndpoint, SysInv, GetPackets, Gather, AllPackets, AllDue, Roomy, AllSent, Committed, OrderOk, SerializeAll,
      Record, Consecutive;
    ActInv(s, DoTick);
    GetPacketsShape(s.x);
    XStep(s, DoTick);
    AliveLink(Act(s, DoTick));
  }

  lemma AcceptedIsHeld(r: RR.RecvState, id: nat)
    requires RR.Accepted(r, id) && r.order.Ordered? && r.oldest <= id
    ensures id in r.messages
  {
  }

  /** After the deliveries the message is held. */
  lemma TickBrings(s: System, c: byte, k: nat, r': RR.RecvState, delivered: seq<nat>, id: nat)
    requires SysInv(s) && Ready(s, c, k) && Kept(s.y.recvR[c], r', At(s.hxy.sent, c), delivered)
    requires AllArrived(r', TurnPackets(s.x, c, k)) && r'.oldest <= id < |At(s.hxy.sent, c)|
    ensures id in r'.messages
  {
    hide WfEndpoint, SysInv, GetPackets, AllArrived, TurnPackets, RR.RecvInv, RR.Grows, FullTurn, Demand, Slicing.Partial;
    if id in r'.slices {
      PartialAt(r', At(s.hxy.sent, c), delivered, id);
    }
    TurnBrings(s, c, k, r', id);
    AcceptedIsHeld(r', id);
  }

  lemma TickCompletes(s: System, c: byte, k: nat, u: System)
    requires SysInv(s) && Ready(s, c, k) && Receiving(u, c) && u.hxy.sent == s.hxy.sent && c in u.y.recvR
    requires Kept(s.y.recvR[c], u.y.recvR[c], At(s.hxy.sent, c), At(u.hxy.delivered, c))
    requires AllArrived(u.y.recvR[c], TurnPackets(s.x, c, k))
    ensures Complete(u, c)
  {
    hide Ready, SysInv, Kept, AllArrived, TurnPackets, AllSent, WfEndpoint, Demand;
    var r' := u.y.recvR[c];
    forall id | r'.oldest <= id < |At(s.hxy.sent, c)|
      ensures id in r'.messages
    {
      TickBrings(s, c, k, r', At(u.hxy.delivered, c), id);
    }
    OrderedOut(u, c);
  }

  lemma DeliveriesKeep(s: System, t: System, u: System, c: byte)
    requires t.y == s.y && t.hxy.sent == s.hxy.sent && Keeps(t, u, c)
    requires RR.RecvInv(u.y.recvR[c], At(u.hxy.sent, c), At(u.hxy.delivered, c))
    ensures c in s.y.recvR && Kept(s.y.recvR[c], u.y.recvR[c], At(s.hxy.sent, c), At(u.hxy.delivered, c))
  {
    hide RR.RecvInv, RR.Grows;
  }

  /** A tick, its deliveries and the calls of `receive_message` after them. */
  lemma Progresses(s: System, c: byte, k: nat) returns (v: System)
    requires SysInv(s) && Ready(s, c, k) && AllSent(At(s.hxy.sent, c))
    ensures Leads(s, v) && v.hxy.sent == s.hxy.sent && At(v.hxy.out, c) == At(s.hxy.sent, c)
  {
    hide Ready, WfEndpoint, SysInv, Enabled, Act, Receiving, Step, Leads, TurnPackets, AllPackets, Arrived, ArrivedFrom, AllSent,
      Complete, Kept, RR.RecvInv;
    assert c in s.y.recvR && c in s.x.sendR && WfEndpoint(s.x) && k < |s.x.sendOrder| by { ReadyParts(s, c, k); }
    TickDelivers(s, c, k);
    TurnIsFor(s, c, k) by { ReadyParts(s, c, k); }
    var t := Act(s, DoTick);
    var u := DeliverRange(t, c, |s.xy.log|, |t.xy.log|);
    TurnArrives(TurnPackets(s.x, c, k), AllPackets(s.x), s.xy.log, c, u.y.recvR[c]);
    ReceivingParts(u, c);
    DeliveriesKeep(s, t, u, c);
    TickCompletes(s, c, k, u);
    v := ReceiveRest(u, c);
    LeadsAcross(t, u, v);
    LeadsFrom(s, t, v);
  }

  lemma ReadyParts(s: System, c: byte, k: nat)
    requires Ready(s, c, k)
    ensures c in s.y.recvR && c in s.x.sendR && WfEndpoint(s.x) && k < |s.x.sendOrder| && FullTurn(s.x, c, k)
  {
  }

  // ---------------------------------------------------------------- the theorem

  /** Going on from `run` by `ext`, everything sent so far on `c` has been handed out, in order. */
  ghost predicate HandsOutAll(run: seq<System>, ext: seq<System>, c: byte)
    requires |run| > 0
  {
    IsRun(run + ext) && At(Last(run + ext).hxy.out, c) == At(Last(run).hxy.sent, c)
  }

  lemma ExtendRun(run: seq<System>, t: System) returns (ext: seq<System>)
    requires IsRun(run) && Leads(Last(run), t)
    ensures IsRun(run + ext) && Last(run + ext) == t
  {
    hide Step, Initial;
    var p :| IsPath(p, Last(run), t);
    ext := p[1..];
    var r := run + ext;
    forall i | 0 <= i < |r| - 1
      ensures Step(r[i], r[i + 1])
    {
      if i < |run| - 1 {
        assert Step(run[i], run[i + 1]);
      } else {
        var j := i - (|run| - 1);
        assert Step(p[j], p[j + 1]);
      }
    }
  }

  /** What has been handed out in full was sendable. */
  lemma HandedOutIsSendable(run: seq<System>, ext: seq<System>, c: byte)
    requires IsRun(run) && c in Last(run).y.recvR && Last(run).y.recvR[c].order.Ordered? && HandsOutAll(run, ext, c)
    ensures AllSent(At(Last(run).hxy.sent, c))
  {
    hide Step, Initial, Sendable;
    var r := run + ext;
    assert r[|run| - 1] == Last(run);
    RunKinds(r, |run| - 1);
    OrderedDelivery(r, c);
    forall id | 0 <= id < |At(Last(run).hxy.sent, c)|
      ensures Sendable(At(Last(run).hxy.sent, c)[id])
    {
      if !Sendable(At(Last(r).hxy.sent, c)[id]) {
        OversizedNeverArrives(r, c, id);
      }
    }
  }

  /**
   From every reachable state in which a channel is ready, the run can be continued to one
   in which exactly the messages sent so far have been handed out, if and only if none of
   them has more than 1,000,000 slices.
   */
  lemma DeliversEverythingIff(run: seq<System>, c: byte, k: nat)
    requires IsRun(run) && Ready(Last(run), c, k)
    ensures (exists ext :: HandsOutAll(run, ext, c)) <==> AllSent(At(Last(run).hxy.sent, c))
  {
    hide Step, Initial, SysInv, AllSent, WfEndpoint, Leads, AllDue, Committed, OrderOk, Demand;
    RunInv(run);
    var s := Last(run);
    if AllSent(At(s.hxy.sent, c)) {
      var v := Progresses(s, c, k);
      var ext := ExtendRun(run, v);
      assert HandsOutAll(run, ext, c);
    }
    if ext :| HandsOutAll(run, ext, c) {
      HandedOutIsSendable(run, ext, c);
    }
  }

  // ---------------------------------------------------------------- a message that is lost

  const AMPLE: nat := 0x100_0000_0000

  function Party(): Endpoint {
    Endpoint(0, 0, map[], [], [Reliable(0)], map[], map[], map[0 := RS.New(0, 0, AMPLE)], map[0 := RR.New(AMPLE, true)],
             Stats.NewStats(), AMPLE, Connecting)
  }

  function Pair(): System {
    System(Party(), Party(), Link([], []), Link([], []), NO_HISTORY, NO_HISTORY)
  }

  lemma PairIsInitial()
    ensures Initial(Pair())
  {
  }

  lemma PairAccepts(m: Message)
    requires |m| <= AMPLE && Enabled(Pair(), DoSend(0, m))
    ensures At(Act(Pair(), DoSend(0, m)).hxy.sent, 0) == [m]
  {
    hide WfEndpoint, Slicing.NumSlices;
  }

  /** `send_message` accepts messages that, whatever happens afterwards, are never handed out. */
  lemma AcceptedButNeverDelivered(m: Message)
    requires |m| <= AMPLE && Slicing.NumSlices(|m|) > 1_000_000
    ensures Initial(Pair()) && Enabled(Pair(), DoSend(0, m))
    ensures var run := [Pair(), Act(Pair(), DoSend(0, m))];
      && IsRun(run) && At(Last(run).hxy.sent, 0) == [m]
      && forall ext :: IsRun(run + ext) ==> !HandsOutAll(run, ext, 0)
  {
    hide Initial, Act, WfEndpoint, SysInv, Sendable;
    PairIsInitial();
    InitialInv(Pair());
    InvIsWf(Pair());
    PairAccepts(m);
    XStep(Pair(), DoSend(0, m));
    hide Step, Enabled;
    var run := [Pair(), Act(Pair(), DoSend(0, m))];
    assert !AllSent([m]) by { TooLarge(m); }
    forall ext | IsRun(run + ext)
      ensures !HandsOutAll(run, ext, 0)
    {
      if HandsOutAll(run, ext, 0) {
        RunKinds(run, 0);
        HandedOutIsSendable(run, ext, 0);
      }
    }
  }

  lemma TooLarge(m: Message)
    requires Slicing.NumSlices(|m|) > 1_000_000
    ensures !AllSent([m])
  {
    assert !Sendable([m][0]);
  }
}
