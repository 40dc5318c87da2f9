/**
 What the receiver has once it has processed everything a reliable channel emitted in one
 full turn, in whatever order the network delivered it.
 */
module ProcessedTurns {
  import opened Common
  import opened AckRanges
  import opened Wire
  import opened Connection
  import opened Direction
  import opened Delivery
  import opened Theorems
  import opened Progress
  import opened Oversized
  import opened Turns
  import Slicing
  import Stats
  import RR = ReliableReceive
  import U = Unreliable
  import DR = DirectionReceive
  import DT = DirectionTick

  // ---------------------------------------------------------------- the configuration of receiving channels

  ghost predicate SameKinds(a: map<byte, RR.RecvState>, b: map<byte, RR.RecvState>) {
    a.Keys == b.Keys && forall c :: c in a ==> a[c].order.Ordered? == b[c].order.Ordered?
  }

  lemma {:induction false} EntriesKind(r: RR.RecvState, es: seq<Entry>)
    ensures ProcessEntries(r, es).state.order.Ordered? == r.order.Ordered?
    decreases |es|
  {
    if es != [] {
      EntriesKind(RR.ProcessMessage(r, es[0].payload, es[0].id).state, es[1..]);
    }
  }

  lemma ReplaceKinds(recvR: map<byte, RR.RecvState>, c: byte, r: RR.RecvState)
    requires c in recvR && r.order.Ordered? == recvR[c].order.Ordered?
    ensures SameKinds(recvR, recvR[c := r])
  {
  }

  lemma KindsSelf(recvR: map<byte, RR.RecvState>)
    ensures SameKinds(recvR, recvR)
  {
  }

  lemma HandleKinds(e: Endpoint, p: Packet)
    requires Stats.WfStats(e.stats)
    ensures SameKinds(e.recvR, Handle(e, p).recvR)
  {
    hide ProcessEntries, RR.ProcessSlice, UProcessMessages, U.UProcessSlice, Stats.WfStats, NewAcks, AckAll, SameKinds;
    KindsSelf(e.recvR);
    match p {
      case SmallReliable(_, c, es) =>
        if c in e.recvR {
          EntriesKind(e.recvR[c], es);
          ReplaceKinds(e.recvR, c, ProcessEntries(e.recvR[c], es).state);
        }
      case ReliableSlice(_, c, sl) =>
        if c in e.recvR {
          SliceKeepsConfig(e.recvR[c], sl);
          ReplaceKinds(e.recvR, c, RR.ProcessSlice(e.recvR[c], sl).state);
        }
      case Ack(_, rs) => AckAllRecv(e, NewAcks(e.sentPackets, rs));
      case _ =>
    }
  }

  lemma ProcessKinds(e: Endpoint, bytes: seq<byte>)
    requires Stats.WfStats(e.stats)
    ensures SameKinds(e.recvR, ProcessPacket(e, bytes).recvR)
  {
    hide Handle, Decode, AddAck, Stats.WfStats;
    if Alive(e) && Decode(bytes).Ok? {
      HandleKinds(e.(pendingAcks := AddAck(e.pendingAcks, Decode(bytes).value.sequence)), Decode(bytes).value);
    }
  }

  lemma ReceiveKinds(e: Endpoint, c: byte)
    requires WfEndpoint(e) && (c in e.recvR || c in e.recvU)
    ensures SameKinds(e.recvR, ReceiveMessage(e, c).endpoint.recvR)
  {
    hide WfEndpoint, RR.CatchUp, U.UReceive;
  }

  lemma ActKinds(s: System, a: Action)
    requires Enabled(s, a)
    ensures SameKinds(s.x.recvR, Act(s, a).x.recvR) && Act(s, a).y == s.y
  {
    hide WfEndpoint, SendMessage, ReceiveMessage, Update, GetPackets, ProcessPacket, DT.TickLink, DR.NoteReceived;
    match a {
      case DoSend(c, m) => SentGrows(s.x, s.hxy, c, m);
      case DoReceive(c) => ReceiveKinds(s.x, c);
      case DoUpdate(d) => UpdateRecv(s.x, d);
      case DoTick => TickRecv(s.x);
      case DoDeliver(i) =>
        WfStatsOf(s.x);
        ProcessKinds(s.x, s.yx.wire[i]);
      case _ =>
    }
  }

  lemma StepKinds(s: System, s': System)
    requires Step(s, s')
    ensures SameKinds(s.y.recvR, s'.y.recvR)
  {
    hide Act, Enabled;
    if a :| Enabled(s, a) && s' == Act(s, a) {
      ActKinds(s, a);
    } else {
      var b :| Enabled(Swap(s), b) && s' == Swap(Act(Swap(s), b));
      ActKinds(Swap(s), b);
    }
  }

  lemma {:induction false} RunKinds(run: seq<System>, n: nat)
    requires n < |run| && forall i :: 0 <= i < |run| - 1 ==> Step(run[i], run[i + 1])
    ensures SameKinds(run[n].y.recvR, Last(run).y.recvR)
  {
    hide Step;
    if n < |run| - 1 {
      var m := |run| - 1;
      RunKinds(run[..m], n);
      assert Step(run[m - 1], run[m - 1 + 1]);
      StepKinds(run[m - 1], run[m]);
    }
  }

  // ---------------------------------------------------------------- growth

  /** What steps keep on the way from `s` to `t`. */
  ghost predicate Onward(s: System, t: System) {
    && RecvGrows(s.y.recvR, t.y.recvR) && s.xy.log <= t.xy.log
    && forall c: byte :: At(s.hxy.sent, c) <= At(t.hxy.sent, c)
  }

  lemma OnwardSelf(s: System)
    ensures Onward(s, s)
  {
    DR.GrowsSelf(s.y.recvR);
  }

  lemma OnwardTransitive(s: System, t: System, u: System)
    requires Onward(s, t) && Onward(t, u)
    ensures Onward(s, u)
  {
    hide RR.Grows;
    forall c | c in s.y.recvR
      ensures RR.Grows(s.y.recvR[c], u.y.recvR[c])
    {
      DR.GrowsTransitive(s.y.recvR[c], t.y.recvR[c], u.y.recvR[c]);
    }
    forall c: byte
      ensures At(s.hxy.sent, c) <= At(u.hxy.sent, c)
    {
      assert At(s.hxy.sent, c) <= At(t.hxy.sent, c) <= At(u.hxy.sent, c);
    }
  }

  lemma DeliverGrows(s: System, i: nat)
    requires SysInv(s) && Enabled(Swap(s), DoDeliver(i))
    ensures Stats.WfStats(s.y.stats) && RecvGrows(s.y.recvR, ProcessPacket(s.y, s.xy.wire[i]).recvR)
  {
    hide WfEndpoint, SysInv, ProcessPacket, SenderOk, ReceiverOk, RecvGrows, Decode, Genuine, DR.PendingFine;
    WfStatsOf(s.y);
    DR.GrowsSelf(s.y.recvR);
    if Alive(s.y) {
      SenderPart(s);
      ReceiverPart(s);
      DR.SentPacket(s.x, s.xy, s.hxy, i);
      assert DR.PendingFine(s.y.pendingAcks, s.hxy.processed) by { PendingHere(s); }
      if Decode(s.xy.wire[i]).Ok? {
        DR.TakesPacket(s.y, s.xy.wire[i], s.xy.log[i], s.hxy, i);
      } else {
        DR.RefusesPayload(s.y, s.xy.wire[i]);
      }
    } else {
      DR.IgnoresPayload(s.y, s.xy.wire[i]);
    }
  }

  lemma PendingHere(s: System)
    requires SysInv(s) && Alive(s.y)
    ensures DR.PendingFine(s.y.pendingAcks, s.hxy.processed)
  {
    DR.PendingPart(s.y, s.yx, s.hxy);
  }

  lemma ReceiveGrows(s: System, c: byte)
    requires SysInv(s) && Enabled(Swap(s), DoReceive(c))
    ensures RecvGrows(s.y.recvR, ReceiveMessage(s.y, c).endpoint.recvR)
    ensures DR.NoteReceived(s.hxy, s.y, c).sent == s.hxy.sent
  {
    hide WfEndpoint, SysInv, ReceiveMessage, DR.NoteReceived, ReceiverOk, RecvGrows;
    ReceiverPart(s);
    DR.GrowsSelf(s.y.recvR);
    DR.ReceiveOnly(s.y, s.hxy, c);
    if Alive(s.y) && c in s.y.recvR {
      DR.ReceiveReliable(s.y, s.hxy, c);
    }
  }

  lemma YOnward(s: System, a: Action)
    requires SysInv(s) && Enabled(Swap(s), a)
    ensures Onward(s, Swap(Act(Swap(s), a)))
  {
    hide WfEndpoint, SysInv, SendMessage, ReceiveMessage, Update, GetPackets, ProcessPacket, DT.TickLink, DT.TickHistory,
      DR.NoteReceived, RecvGrows;
    DR.GrowsSelf(s.y.recvR);
    match a {
      case DoSend(c, m) => SentGrows(s.y, s.hyx, c, m);
      case DoReceive(c) => ReceiveGrows(s, c);
      case DoUpdate(d) => UpdateRecv(s.y, d);
      case DoTick => TickRecv(s.y);
      case DoDeliver(i) => DeliverGrows(s, i);
      case _ =>
    }
  }

  lemma XOnward(s: System, a: Action)
    requires SysInv(s) && Enabled(s, a)
    ensures Onward(s, Act(s, a))
  {
    hide WfEndpoint, SysInv, SendMessage, ReceiveMessage, Update, GetPackets, ProcessPacket, DR.NoteReceived, RecvGrows;
    DR.GrowsSelf(s.y.recvR);
    if a.DoSend? {
      SentGrows(s.x, s.hxy, a.channel, a.message);
    }
  }

  lemma StepOnward(s: System, s': System)
    requires SysInv(s) && Step(s, s')
    ensures Onward(s, s')
  {
    hide SysInv, Act, Enabled, Onward;
    if a :| Enabled(s, a) && s' == Act(s, a) {
      XOnward(s, a);
    } else {
      var b :| Enabled(Swap(s), b) && s' == Swap(Act(Swap(s), b));
      YOnward(s, b);
    }
  }

  lemma {:induction false} RunOnward(run: seq<System>, n: nat)
    requires IsRun(run) && n < |run|
    ensures Onward(run[n], Last(run))
  {
    hide Step, Initial, Onward, SysInv;
    if n == |run| - 1 {
      OnwardSelf(run[n]);
    } else {
      var m := |run| - 1;
      RunOnward(run[..m], n);
      RunInv(run[..m]);
      assert Step(run[m - 1], run[m - 1 + 1]);
      StepOnward(run[m - 1], run[m]);
      OnwardTransitive(run[n], run[m - 1], run[m]);
    }
  }

  // ---------------------------------------------------------------- the theorem

  /** Every packet of channel `c` among `lo..hi` of the log has been processed. */
  ghost predicate AllProcessed(s: System, c: byte, lo: nat, hi: nat) {
    forall i :: lo <= i < hi && i < |s.xy.log| && For(s.xy.log[i], c) ==> i in s.hxy.processed
  }

  lemma ProcessedArrived(s: System, c: byte, lo: nat, hi: nat)
    requires SysInv(s) && AllProcessed(s, c, lo, hi) && c in s.y.recvR
    ensures ArrivedFrom(s.y.recvR[c], s.xy.log, c, lo, hi)
  {
    assert ProcessedOk(s.xy, s.y.recvR, s.hxy.processed);
    hide SysInv, RR.Accepted, RR.GotSlice;
    forall i | lo <= i < hi && i < |s.xy.log| && For(s.xy.log[i], c)
      ensures Arrived(s.y.recvR[c], s.xy.log[i])
    {
      assert Absorbed(s.y.recvR, s.xy.log[i]);
    }
  }

  lemma ArrivedPrefix(r: RR.RecvState, log: seq<Packet>, longer: seq<Packet>, c: byte, lo: nat)
    requires log <= longer && ArrivedFrom(r, longer, c, lo, |log|)
    ensures ArrivedFrom(r, log, c, lo, |log|)
  {
    hide Arrived;
    forall i | lo <= i < |log| && For(log[i], c)
      ensures Arrived(r, log[i])
    {
      assert log[i] == longer[i];
    }
  }

  /**
   In every run, once the receiver has processed all packets that channel `c` emitted in one
   full turn, in any order, repeated, and whatever else happened meanwhile, it has taken in
   every message that was sent on the channel before that tick.
   */
  lemma ProcessedTurnSuffices(run: seq<System>, n: nat, c: byte, k: nat, id: nat)
    requires IsRun(run) && n + 1 < |run| && Alive(run[n].x) && FullTurn(run[n].x, c, k)
    requires Enabled(run[n], DoTick) && run[n + 1] == Act(run[n], DoTick)
    requires AllProcessed(Last(run), c, |run[n].xy.log|, |run[n + 1].xy.log|)
    requires c in Last(run).y.recvR && id < |At(run[n].hxy.sent, c)|
    ensures RR.Accepted(Last(run).y.recvR[c], id)
  {
    hide Step, Initial, SysInv, FullTurn, WfEndpoint, Onward, Act, Enabled, AllProcessed, ArrivedFrom, RR.Accepted, TurnPackets,
      AllPackets, RR.Grows, Slicing.Partial, RR.RecvInv, OutOk, SameKinds;
    var s, t, u := run[n], run[n + 1], Last(run);
    assert run[..n + 1][n] == s;
    RunInv(run[..n + 1]);
    RunInv(run);
    RunOnward(run, n);
    RunOnward(run, n + 1);
    RunKinds(run, n);
    assert c in s.x.sendR && WfEndpoint(s.x) && k < |s.x.sendOrder| by { FullTurnIs(s.x, c, k); }
    assert t.xy.log == s.xy.log + AllPackets(s.x) by { TickLog(s); }
    OnwardIs(s, u, c);
    OnwardIs(t, u, c);
    ProcessedArrived(u, c, |s.xy.log|, |t.xy.log|);
    ArrivedPrefix(u.y.recvR[c], t.xy.log, u.xy.log, c, |s.xy.log|);
    TurnIsFor(s, c, k);
    TurnArrives(TurnPackets(s.x, c, k), AllPackets(s.x), s.xy.log, c, u.y.recvR[c]);
    ReceiverAt(u, c);
    if id in u.y.recvR[c].slices {
      PartialAt(u.y.recvR[c], At(u.hxy.sent, c), At(u.hxy.delivered, c), id);
    }
    assert c in s.y.recvR && RR.Grows(s.y.recvR[c], u.y.recvR[c]) by { KindsAndGrowth(s, u, c); }
    TurnBrings(s, c, k, u.y.recvR[c], id);
  }

  lemma TickLog(s: System)
    requires Enabled(s, DoTick) && Alive(s.x)
    ensures Act(s, DoTick).xy.log == s.xy.log + AllPackets(s.x)
  {
    hide WfEndpoint, GetPackets, AllPackets, Gather, SerializeAll, Record, Consecutive;
    GetPacketsShape(s.x);
  }

  lemma OnwardIs(s: System, t: System, c: byte)
    requires Onward(s, t)
    ensures s.xy.log <= t.xy.log && At(s.hxy.sent, c) <= At(t.hxy.sent, c)
  {
  }

  lemma KindsAndGrowth(s: System, t: System, c: byte)
    requires SameKinds(s.y.recvR, t.y.recvR) && Onward(s, t) && c in t.y.recvR
    ensures c in s.y.recvR && RR.Grows(s.y.recvR[c], t.y.recvR[c])
  {
    hide RR.Grows;
  }
}
