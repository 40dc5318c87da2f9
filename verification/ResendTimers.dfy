/**
 The resend timers of a reliable channel (renet/src/channel/reliable.rs): a tick sets the
 timer of exactly what it emits, so nothing is emitted twice within the resend time.
 */
module ResendTimers {
  import opened Common
  import opened AckRanges
  import opened Wire
  import opened Connection
  import opened Delivery
  import opened Theorems
  import Stats
  import RS = ReliableSend
  import SS = SendScheduling
  import RR = ReliableReceive
  import U = Unreliable

  // ---------------------------------------------------------------- one channel

  /** The item is a held small message or a slice of a held message. */
  ghost predicate Held(unacked: map<nat, RS.Unacked>, it: SS.Item) {
    && it.id in unacked
    && match unacked[it.id]
       case Small(_, _) => it.SmallItem?
       case Sliced(_, _, _, _, _, lastSents) => it.SliceItem? && it.index < |lastSents|
  }

  /** When it was last emitted. */
  ghost function Timer(unacked: map<nat, RS.Unacked>, it: SS.Item): Option<Time>
    requires Held(unacked, it)
  {
    match unacked[it.id]
    case Small(_, lastSent) => lastSent
    case Sliced(_, _, _, _, _, lastSents) => lastSents[it.index]
  }

  /** In the slice loop the timer of a slice is set exactly if the slice is emitted. */
  lemma {:induction false} SliceTimer(b: SS.Batch, s: RS.SendState, now: Time, id: nat, u: RS.Unacked, j: nat, i: nat)
    requires RS.WfUnacked(u) && u.Sliced? && j <= u.numSlices && i < u.numSlices
    ensures
      var it := SS.SliceItem(id, i);
      var before, after := SS.CountAfter(b, s, now, id, u, 0, it), SS.CountAfter(b, s, now, id, u, j, it);
      && before <= after <= before + 1
      && SS.SliceScan(b, s, now, id, u, j).message.lastSents[i] == if after > before then Some(now) else u.lastSents[i]
  {
    hide SS.CountAfter, SS.EmitSlice, SS.Rotated, SS.Wanted, SS.RoundOf;
    if j > 0 {
      SliceTimer(b, s, now, id, u, j - 1, i);
      var it := SS.SliceItem(id, i);
      SS.RoundItems(b, s, now, id, u, j - 1, it);
      SS.WantedStep(s, now, id, u, j - 1, it);
      SS.SliceScanItems(b, s, now, id, u, j - 1, it);
      SS.RotationIsBijection(u, i, j - 1);
      if i == SS.Rotated(u, j - 1) {
        SS.SliceScanTimers(b, s, now, id, u, j - 1, i);
      }
    }
  }

  /** How often the item is in the batch. */
  ghost function Count(b: SS.Batch, it: SS.Item): nat {
    SS.BatchItems(b)[it]
  }

  lemma VisitTimer(b: SS.Batch, s: RS.SendState, now: Time, it: SS.Item)
    requires SS.AllWf(s.unacked) && Held(s.unacked, it)
    ensures
      var v := SS.VisitMessage(b, s, now, it.id, s.unacked[it.id]);
      var after := map[it.id := v.message];
      && Count(b, it) <= Count(v.batch, it) <= Count(b, it) + 1
      && Held(after, it)
      && Timer(after, it) == if Count(v.batch, it) > Count(b, it) then Some(now) else Timer(s.unacked, it)
  {
    hide SS.BatchItems;
    var u := s.unacked[it.id];
    assert RS.WfUnacked(u);
    if u.Sliced? {
      SliceTimer(b, s, now, it.id, u, u.numSlices, it.index);
      assert SS.CountAfter(b, s, now, it.id, u, 0, it) == Count(b, it);
      hide SS.SliceScan;
    } else if |u.message| <= b.available {
      SS.CollectItems(b, s.channelId, Entry(it.id, u.message));
    }
  }

  /** The state of an item after the ids below `k` were visited. */
  ghost predicate ScannedItem(s: RS.SendState, r: SS.Scanned, now: Time, k: nat, it: SS.Item) {
    && Held(s.unacked, it) && Held(r.unacked, it) && Count(r.batch, it) <= 1
    && (k <= it.id ==> it.id in r.unacked && r.unacked[it.id] == s.unacked[it.id] && Count(r.batch, it) == 0)
    && Timer(r.unacked, it) == if Count(r.batch, it) == 1 then Some(now) else Timer(s.unacked, it)
  }

  lemma {:induction false} ScanTimer(s: RS.SendState, first: nat, available: nat, now: Time, k: nat, it: SS.Item)
    requires SS.AllWf(s.unacked) && Held(s.unacked, it)
    ensures ScannedItem(s, SS.Scan(s, first, available, now, k), now, k, it)
  {
    hide SS.VisitMessage, SS.BatchItems, RS.WfUnacked;
    if k == 0 {
      SS.NothingBatched(first, available);
      assert SS.Scan(s, first, available, now, 0).unacked == s.unacked;
    } else {
      ScanTimer(s, first, available, now, k - 1, it);
      var r := SS.Scan(s, first, available, now, k - 1);
      if k - 1 in s.unacked {
        var v := SS.VisitMessage(r.batch, s, now, k - 1, s.unacked[k - 1]);
        if it.id == k - 1 {
          VisitTimer(r.batch, s, now, it);
          SameEntry(map[it.id := v.message], r.unacked[k - 1 := v.message], it);
        } else {
          SS.VisitMessageItems(r.batch, s, now, k - 1, it);
          SameEntry(r.unacked, r.unacked[k - 1 := v.message], it);
        }
      }
    }
  }

  lemma SameEntry(a: map<nat, RS.Unacked>, b: map<nat, RS.Unacked>, it: SS.Item)
    requires Held(a, it) && it.id in b && b[it.id] == a[it.id]
    ensures Held(b, it) && Timer(b, it) == Timer(a, it)
  {
  }

  /** How often a tick emits the item. */
  ghost function Emitted(t: SS.Tick, it: SS.Item): nat {
    SS.Items(t.packets)[it]
  }

  /** A tick sets the timer of each item it emits to the present, and of no other. */
  lemma TickSetsTimers(s: RS.SendState, first: nat, available: nat, now: Time, it: SS.Item)
    requires RS.WfSend(s) && Held(s.unacked, it)
    ensures
      var t := SS.GetPackets(s, first, available, now);
      && Emitted(t, it) <= 1 && Held(t.state.unacked, it)
      && Timer(t.state.unacked, it) == if Emitted(t, it) == 1 then Some(now) else Timer(s.unacked, it)
  {
    hide RS.HeldBytes, RS.WfUnacked, Held, Timer, SS.Scan;
    ScanTimer(s, first, available, now, s.nextId, it);
    var b := SS.Scan(s, first, available, now, s.nextId).batch;
    SS.FlushItems(b, s.channelId);
  }

  /** Only held items are emitted. */
  lemma EmittedIsHeld(s: RS.SendState, first: nat, available: nat, now: Time, it: SS.Item)
    requires RS.WfSend(s) && Emitted(SS.GetPackets(s, first, available, now), it) > 0
    ensures SS.Outstanding(s, now, it) && Held(s.unacked, it) && SS.Due(Timer(s.unacked, it), now, s.resendTime)
  {
    SS.TickEmitsOutstandingOnce(s, first, available, now, it);
    assert RS.WfUnacked(s.unacked[it.id]);
    hide SS.GetPackets, SS.Items;
  }

  /** Two ticks in a row, less than the resend time apart, emit nothing in common. */
  lemma NoEarlyResend(
    s: RS.SendState, first: nat, available: nat, now: Time, first': nat, available': nat, later: Time, it: SS.Item)
    requires RS.WfSend(s) && now <= later < now + s.resendTime
    ensures var t := SS.GetPackets(s, first, available, now);
      RS.WfSend(t.state) && (Emitted(t, it) == 0 || Emitted(SS.GetPackets(t.state, first', available', later), it) == 0)
  {
    hide RS.HeldBytes, RS.WfUnacked, SS.GetPackets, Emitted, SS.Outstanding, Held, Timer;
    SS.GetPacketsWf(s, first, available, now);
    var t := SS.GetPackets(s, first, available, now);
    if Emitted(t, it) > 0 && Emitted(SS.GetPackets(t.state, first', available', later), it) > 0 {
      EmittedIsHeld(s, first, available, now, it);
      TickSetsTimers(s, first, available, now, it);
      EmittedIsHeld(t.state, first', available', later, it);
    }
  }

  // ---------------------------------------------------------------- guarded items

  /** The item was emitted at `t` or later, or is not held any more and never will be. */
  ghost predicate Guarded(s: RS.SendState, it: SS.Item, t: Time) {
    it.id < s.nextId && (Held(s.unacked, it) ==> Timer(s.unacked, it).Some? && Timer(s.unacked, it).value >= t)
  }

  lemma SendGuards(s: RS.SendState, m: Message, it: SS.Item, t: Time)
    requires Guarded(s, it, t) && RS.SendMessage(s, m).Some?
    ensures Guarded(RS.SendMessage(s, m).value, it, t)
  {
  }

  lemma AckGuards(s: RS.SendState, id: nat, i: nat, it: SS.Item, t: Time)
    requires Guarded(s, it, t)
    ensures RS.AckMessage(s, id).Acked? ==> Guarded(RS.AckMessage(s, id).state, it, t)
    ensures RS.AckSlice(s, id, i).Acked? ==> Guarded(RS.AckSlice(s, id, i).state, it, t)
  {
  }

  lemma {:induction false} AckMessagesGuard(s: RS.SendState, ids: seq<nat>, it: SS.Item, t: Time)
    requires Guarded(s, it, t)
    ensures AckMessages(s, ids).Acked? ==> Guarded(AckMessages(s, ids).state, it, t)
    decreases |ids|
  {
    hide Guarded, RS.AckMessage;
    if ids != [] && RS.AckMessage(s, ids[0]).Acked? {
      AckGuards(s, ids[0], 0, it, t);
      AckMessagesGuard(RS.AckMessage(s, ids[0]).state, ids[1..], it, t);
    }
  }

  lemma TickGuards(s: RS.SendState, first: nat, available: nat, now: Time, it: SS.Item, t: Time)
    requires RS.WfSend(s) && t <= now && (Guarded(s, it, t) || Emitted(SS.GetPackets(s, first, available, now), it) > 0)
    ensures Guarded(SS.GetPackets(s, first, available, now).state, it, t)
  {
    hide RS.HeldBytes, RS.WfUnacked, SS.GetPackets, Emitted, SS.Outstanding, Held, Timer;
    SS.GetPacketsWf(s, first, available, now);
    var r := SS.GetPackets(s, first, available, now);
    if Emitted(r, it) > 0 {
      EmittedIsHeld(s, first, available, now, it);
      assert it.id < s.nextId by { HeldBelow(s, it); }
    }
    if Held(r.state.unacked, it) {
      assert Held(s.unacked, it) by { HeldBefore(s, r.state, it); }
      TickSetsTimers(s, first, available, now, it);
    }
  }

  lemma HeldBelow(s: RS.SendState, it: SS.Item)
    requires RS.WfSend(s) && Held(s.unacked, it)
    ensures it.id < s.nextId
  {
  }

  lemma HeldBefore(s: RS.SendState, r: RS.SendState, it: SS.Item)
    requires RS.WfSend(s) && RS.WfSend(r) && SS.SameMessages(s.unacked, r.unacked) && Held(r.unacked, it)
    ensures Held(s.unacked, it)
  {
    assert RS.WfUnacked(s.unacked[it.id]) && RS.WfUnacked(r.unacked[it.id]);
  }

  /** A guarded item is not emitted before its time. */
  lemma GuardedIsSilent(s: RS.SendState, first: nat, available: nat, now: Time, it: SS.Item, t: Time)
    requires RS.WfSend(s) && Guarded(s, it, t) && now < t + s.resendTime
    ensures Emitted(SS.GetPackets(s, first, available, now), it) == 0
  {
    hide RS.HeldBytes, RS.WfUnacked, SS.GetPackets, Emitted, SS.Outstanding, Held, Timer;
    if Emitted(SS.GetPackets(s, first, available, now), it) > 0 {
      EmittedIsHeld(s, first, available, now, it);
    }
  }

  // ---------------------------------------------------------------- an endpoint

  /** Channel `c` of the endpoint, with this resend time, has the item guarded. */
  ghost predicate Quiet(e: Endpoint, c: byte, it: SS.Item, t: Time, resend: Time) {
    && c in e.sendR && e.sendR[c].resendTime == resend && t <= e.currentTime && Guarded(e.sendR[c], it, t)
  }

  lemma SendQuiet(e: Endpoint, d: byte, m: Message, c: byte, it: SS.Item, t: Time, resend: Time)
    requires Quiet(e, c, it, t, resend) && (d in e.sendR || d in e.sendU)
    ensures Quiet(SendMessage(e, d, m), c, it, t, resend)
  {
    if d in e.sendR && RS.SendMessage(e.sendR[d], m).Some? && d == c {
      SendGuards(e.sendR[d], m, it, t);
    }
    hide Guarded;
  }

  lemma AckOneQuiet(e: Endpoint, s: nat, c: byte, it: SS.Item, t: Time, resend: Time)
    requires Stats.WfStats(e.stats) && Quiet(e, c, it, t, resend)
    ensures Quiet(AckOne(e, s), c, it, t, resend)
  {
    hide Guarded, Stats.CountAcked, Stats.WfStats, AckMessages, RS.AckSlice, AckedLargest;
    if s in e.sentPackets {
      match e.sentPackets[s].info {
        case ReliableMessages(d, ids) =>
          if d in e.sendR && d == c {
            AckMessagesGuard(e.sendR[d], ids, it, t);
            AckMessagesResend(e.sendR[d], ids);
          }
        case ReliableSliceMessage(d, id, i) =>
          if d in e.sendR && d == c {
            AckGuards(e.sendR[d], id, i, it, t);
            AckSliceResend(e.sendR[d], id, i);
          }
        case _ =>
      }
    }
  }

  lemma {:induction false} AckMessagesResend(s: RS.SendState, ids: seq<nat>)
    ensures AckMessages(s, ids).Acked? ==> AckMessages(s, ids).state.resendTime == s.resendTime
    decreases |ids|
  {
    if ids != [] && RS.AckMessage(s, ids[0]).Acked? {
      AckMessagesResend(RS.AckMessage(s, ids[0]).state, ids[1..]);
    }
  }

  lemma AckSliceResend(s: RS.SendState, id: nat, i: nat)
    ensures RS.AckSlice(s, id, i).Acked? ==> RS.AckSlice(s, id, i).state.resendTime == s.resendTime
  {
  }

  lemma {:induction false} AckAllQuiet(e: Endpoint, ss: seq<nat>, c: byte, it: SS.Item, t: Time, resend: Time)
    requires Stats.WfStats(e.stats) && Quiet(e, c, it, t, resend)
    ensures Quiet(AckAll(e, ss), c, it, t, resend)
  {
    hide Quiet, AckOne, Stats.WfStats;
    if ss != [] {
      AckAllQuiet(e, ss[..|ss| - 1], c, it, t, resend);
      AckOneQuiet(AckAll(e, ss[..|ss| - 1]), ss[|ss| - 1], c, it, t, resend);
    }
  }

  lemma QuietFrame(e: Endpoint, e': Endpoint, c: byte, it: SS.Item, t: Time, resend: Time)
    requires Quiet(e, c, it, t, resend) && e'.sendR == e.sendR && e.currentTime <= e'.currentTime
    ensures Quiet(e', c, it, t, resend)
  {
    hide Guarded;
  }

  lemma ProcessQuiet(e: Endpoint, bytes: seq<byte>, c: byte, it: SS.Item, t: Time, resend: Time)
    requires Stats.WfStats(e.stats) && Quiet(e, c, it, t, resend)
    ensures Quiet(ProcessPacket(e, bytes), c, it, t, resend)
  {
    hide Quiet, Decode, AddAck, ProcessEntries, UProcessMessages, RR.ProcessSlice, U.UProcessSlice, NewAcks, AckAll,
      Stats.WfStats;
    var d := Decode(bytes);
    if Alive(e) && d.Ok? && d.value.Ack? {
      var noted := e.(pendingAcks := AddAck(e.pendingAcks, d.value.sequence));
      QuietFrame(e, noted, c, it, t, resend);
      AckAllQuiet(noted, NewAcks(noted.sentPackets, d.value.ackRanges), c, it, t, resend);
    } else {
      QuietFrame(e, ProcessPacket(e, bytes), c, it, t, resend);
    }
  }

  // ---------------------------------------------------------------- a tick

  /** The packet carries the item on channel `c`. */
  ghost predicate CarriesItem(p: Packet, c: byte, it: SS.Item) {
    (p.SmallReliable? || p.ReliableSlice?) && p.channelId == c && it in SS.PacketItems(p)
  }

  ghost predicate SomeCarries(ps: seq<Packet>, c: byte, it: SS.Item) {
    exists p :: p in ps && CarriesItem(p, c, it)
  }

  lemma {:induction false} CarriedIsItem(ps: seq<Packet>, p: Packet, it: SS.Item)
    requires p in ps && it in SS.PacketItems(p)
    ensures SS.Items(ps)[it] > 0
  {
    hide SS.PacketItems;
    if p != ps[|ps| - 1] {
      CarriedIsItem(ps[..|ps| - 1], p, it);
    }
  }

  /** The channels know their own ids. */
  ghost predicate OwnIds(sendR: map<byte, RS.SendState>) {
    forall c :: c in sendR ==> sendR[c].channelId == c
  }

  lemma TurnCarries(s: RS.SendState, first: nat, available: nat, now: Time, c: byte, it: SS.Item)
    requires RS.WfSend(s) && SomeCarries(SS.GetPackets(s, first, available, now).packets, c, it)
    ensures s.channelId == c && Emitted(SS.GetPackets(s, first, available, now), it) > 0
  {
    hide RS.HeldBytes, RS.WfUnacked, SS.GetPackets;
    SS.TickIsSound(s, first, available, now);
    var ps := SS.GetPackets(s, first, available, now).packets;
    var p :| p in ps && CarriesItem(p, c, it);
    assert SS.FromChannel(s.channelId, s.unacked, p);
    CarriedIsItem(ps, p, it);
  }

  lemma UnreliableCarriesNone(s: U.USend, first: nat, available: nat, c: byte, it: SS.Item)
    requires U.WfUSend(s)
    ensures !SomeCarries(U.UGetPackets(s, first, available).packets, c, it)
  {
    U.UTickIsSound(s, first, available);
    hide U.UGetPackets;
  }

  lemma CarriesConcat(a: seq<Packet>, b: seq<Packet>, c: byte, it: SS.Item)
    ensures SomeCarries(a + b, c, it) <==> SomeCarries(a, c, it) || SomeCarries(b, c, it)
  {
    hide CarriesItem;
  }

  lemma GatherOneQuiet(g: Gathered, now: Time, order: ChannelOrder, c: byte, it: SS.Item, t: Time)
    requires WfGathered(g) && Exists(order, g.sendR.Keys, g.sendU.Keys) && OwnIds(g.sendR) && c in g.sendR && t <= now
    ensures var g' := GatherOne(g, now, order);
      && OwnIds(g'.sendR) && g'.sendR[c].resendTime == g.sendR[c].resendTime
      && (Guarded(g.sendR[c], it, t) ==> Guarded(g'.sendR[c], it, t))
      && (SomeCarries(g'.packets, c, it) ==> SomeCarries(g.packets, c, it) || Guarded(g'.sendR[c], it, t))
      && (Guarded(g.sendR[c], it, t) && now < t + g.sendR[c].resendTime && !SomeCarries(g.packets, c, it) ==>
           !SomeCarries(g'.packets, c, it))
  {
    hide SS.GetPackets, U.UGetPackets, RS.HeldBytes, RS.WfUnacked, SomeCarries, Guarded, Emitted;
    match order {
      case Reliable(d) =>
        var s := g.sendR[d];
        SS.GetPacketsWf(s, g.sequence, g.available, now);
        var r := SS.GetPackets(s, g.sequence, g.available, now);
        CarriesConcat(g.packets, r.packets, c, it);
        if SomeCarries(r.packets, c, it) {
          TurnCarries(s, g.sequence, g.available, now, c, it);
        }
        if d == c {
          if Guarded(s, it, t) || Emitted(r, it) > 0 {
            TickGuards(s, g.sequence, g.available, now, it, t);
          }
          if Guarded(s, it, t) && now < t + s.resendTime {
            GuardedIsSilent(s, g.sequence, g.available, now, it, t);
          }
        }
      case Unreliable(d) =>
        var r := U.UGetPackets(g.sendU[d], g.sequence, g.available);
        CarriesConcat(g.packets, r.packets, c, it);
        UnreliableCarriesNone(g.sendU[d], g.sequence, g.available, c, it);
    }
  }

  lemma NoPackets(c: byte, it: SS.Item)
    ensures !SomeCarries([], c, it)
  {
  }

  /** Over all channels of a tick: what was guarded or is emitted is guarded afterwards, and what is guarded is silent. */
  lemma {:induction false} GatherQuiet(e: Endpoint, k: nat, c: byte, it: SS.Item, t: Time)
    requires WfEndpoint(e) && k <= |e.sendOrder| && OwnIds(e.sendR) && c in e.sendR && t <= e.currentTime
    ensures var g := Gather(e, k);
      && OwnIds(g.sendR) && g.sendR[c].resendTime == e.sendR[c].resendTime
      && (Guarded(e.sendR[c], it, t) || SomeCarries(g.packets, c, it) ==> Guarded(g.sendR[c], it, t))
      && (Guarded(e.sendR[c], it, t) && e.currentTime < t + e.sendR[c].resendTime ==> !SomeCarries(g.packets, c, it))
  {
    hide WfEndpoint, WfGathered, GatherOne, SomeCarries, Guarded;
    if k == 0 {
      NoPackets(c, it);
    } else {
      GatherQuiet(e, k - 1, c, it, t);
      OrderExists(e, k - 1);
      GatherOneQuiet(Gather(e, k - 1), e.currentTime, e.sendOrder[k - 1], c, it, t);
    }
  }

  lemma AllCarries(e: Endpoint, c: byte, it: SS.Item)
    requires WfEndpoint(e)
    ensures SomeCarries(AllPackets(e), c, it) <==> SomeCarries(Gather(e, |e.sendOrder|).packets, c, it)
  {
    hide WfEndpoint, Gather;
    var g := Gather(e, |e.sendOrder|);
    CarriesConcat(g.packets, if e.pendingAcks == [] then [] else [Ack(g.sequence, e.pendingAcks)], c, it);
  }

  lemma TickQuiet(e: Endpoint, c: byte, it: SS.Item, t: Time, resend: Time)
    requires WfEndpoint(e) && Alive(e) && OwnIds(e.sendR) && c in e.sendR && t <= e.currentTime && e.sendR[c].resendTime == resend
    ensures Guarded(e.sendR[c], it, t) || SomeCarries(AllPackets(e), c, it) ==> Quiet(GetPackets(e).endpoint, c, it, t, resend)
    ensures Guarded(e.sendR[c], it, t) && e.currentTime < t + resend ==> !SomeCarries(AllPackets(e), c, it)
  {
    hide WfEndpoint, Gather, GetPackets, AllPackets, Guarded, SomeCarries, SerializeAll, Record, Consecutive;
    GatherQuiet(e, |e.sendOrder|, c, it, t);
    AllCarries(e, c, it);
    GetPacketsShape(e);
  }

  // ---------------------------------------------------------------- runs

  lemma IdsOf(s: System)
    requires SysInv(s)
    ensures OwnIds(s.x.sendR)
  {
    SendingParts(s);
    forall c | c in s.x.sendR
      ensures s.x.sendR[c].channelId == c
    {
      SenderAt(s, c);
    }
  }

  lemma ActQuiet(s: System, a: Action, c: byte, it: SS.Item, t: Time, resend: Time)
    requires SysInv(s) && Enabled(s, a) && Quiet(s.x, c, it, t, resend)
    ensures Quiet(Act(s, a).x, c, it, t, resend)
  {
    hide Guarded, SysInv, WfEndpoint, SendMessage, ReceiveMessage, GetPackets, ProcessPacket, Update, SomeCarries, AllPackets;
    match a {
      case DoSend(d, m) => SendQuiet(s.x, d, m, c, it, t, resend);
      case DoReceive(d) => ReceiveSends(s.x, d);
      case DoUpdate(d) => UpdateSends(s.x, d);
      case DoTick =>
        if Alive(s.x) {
          IdsOf(s);
          TickQuiet(s.x, c, it, t, resend);
        } else {
          DeadTick(s.x);
        }
      case DoDeliver(i) =>
        WfStatsOf(s.x);
        ProcessQuiet(s.x, s.yx.wire[i], c, it, t, resend);
      case _ =>
    }
  }

  lemma ReceiveSends(e: Endpoint, c: byte)
    requires WfEndpoint(e) && (c in e.recvR || c in e.recvU)
    ensures var r := ReceiveMessage(e, c).endpoint; r.sendR == e.sendR && r.currentTime == e.currentTime
  {
    hide WfEndpoint, RR.Receive, U.UReceive;
  }

  lemma UpdateSends(e: Endpoint, d: Time)
    requires WfEndpoint(e)
    ensures Update(e, d).sendR == e.sendR && Update(e, d).currentTime == e.currentTime + d
  {
    hide WfEndpoint, Expire, DiscardAll, Stats.UpdateStats;
  }

  lemma StepQuiet(s: System, s': System, c: byte, it: SS.Item, t: Time, resend: Time)
    requires SysInv(s) && Step(s, s') && Quiet(s.x, c, it, t, resend)
    ensures Quiet(s'.x, c, it, t, resend)
  {
    hide SysInv, Act, Enabled, Quiet;
    if a :| Enabled(s, a) && s' == Act(s, a) {
      ActQuiet(s, a, c, it, t, resend);
    } else {
      var b :| Enabled(Swap(s), b) && s' == Swap(Act(Swap(s), b));
      ActKeepsPeer(Swap(s), b);
    }
  }

  lemma {:induction false} RunQuiet(run: seq<System>, n: nat, c: byte, it: SS.Item, t: Time, resend: Time)
    requires IsRun(run) && n < |run| && Quiet(run[n].x, c, it, t, resend)
    ensures Quiet(Last(run).x, c, it, t, resend)
  {
    hide Step, Initial, Quiet, SysInv;
    if n < |run| - 1 {
      var m := |run| - 1;
      RunQuiet(run[..m], n, c, it, t, resend);
      RunInv(run[..m]);
      assert Step(run[m - 1], run[m - 1 + 1]);
      StepQuiet(run[m - 1], run[m], c, it, t, resend);
    }
  }

  /**
   In every run: if a tick at one moment emits a small message or a slice on channel `c`,
   then no tick emits it again before the channel's resend time has passed, whatever else
   happens in between.
   */
  lemma NothingResentEarly(run: seq<System>, n: nat, c: byte, it: SS.Item)
    requires IsRun(run) && n + 1 < |run| && Enabled(run[n], DoTick) && run[n + 1] == Act(run[n], DoTick)
    requires Alive(run[n].x) && c in run[n].x.sendR && SomeCarries(AllPackets(run[n].x), c, it)
    requires WfEndpoint(Last(run).x) && Alive(Last(run).x)
    requires Last(run).x.currentTime < run[n].x.currentTime + run[n].x.sendR[c].resendTime
    ensures !SomeCarries(AllPackets(Last(run).x), c, it)
  {
    hide Step, Initial, SysInv, WfEndpoint, GetPackets, AllPackets, SomeCarries, Guarded;
    var s, t, resend := run[n], run[n].x.currentTime, run[n].x.sendR[c].resendTime;
    assert run[..n + 1][n] == s;
    RunInv(run[..n + 1]);
    IdsOf(s);
    TickQuiet(s.x, c, it, t, resend);
    RunQuiet(run, n + 1, c, it, t, resend);
    RunInv(run);
    IdsOf(Last(run));
    TickQuiet(Last(run).x, c, it, t, resend);
  }
}
