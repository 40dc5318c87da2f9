/**
 Progress of one reliable channel: a receiver with enough memory refuses nothing, and a tick
 with every timer due and enough budget emits everything that is still missing.
 */
module Progress {
  import opened Common
  import opened Wire
  import opened Connection
  import opened Direction
  import opened Delivery
  import opened Theorems
  import Slicing
  import RS = ReliableSend
  import SS = SendScheduling
  import RR = ReliableReceive
  import DR = DirectionReceive
  import DS = DirectionSend

  // ---------------------------------------------------------------- taking in a list of packets

  /** What a packet does to the receiving channel it is for. */
  function Take(r: RR.RecvState, p: Packet): RR.RecvOutcome {
    match p
    case SmallReliable(_, _, es) => ProcessEntries(r, es)
    case ReliableSlice(_, _, sl) => RR.ProcessSlice(r, sl)
    case _ => RR.RecvOutcome(r, None)
  }

  /** The packet is for channel `c` and carries what was sent there. */
  ghost predicate ChannelPacket(c: byte, sent: seq<Message>, p: Packet) {
    match p
    case SmallReliable(_, k, es) => k == c && forall e :: e in es ==> GenuineEntry(sent, e)
    case ReliableSlice(_, k, sl) => k == c && RR.GenuineSlice(sent, sl)
    case _ => false
  }

  ghost predicate ChannelPackets(c: byte, sent: seq<Message>, ps: seq<Packet>) {
    forall p :: p in ps ==> ChannelPacket(c, sent, p)
  }

  // ---------------------------------------------------------------- memory

  /** The memory a receiving channel may need for a message. */
  ghost function Footprint(m: Message): nat {
    if |m| <= SLICE_SIZE then |m| else Slicing.NumSlices(|m|) * SLICE_SIZE
  }

  /** The memory needed for the messages from `lo` up to but not including `hi`. */
  ghost function Demand(sent: seq<Message>, lo: nat, hi: nat): nat
    requires hi <= |sent|
  {
    if hi <= lo then 0 else Demand(sent, lo, hi - 1) + Footprint(sent[hi - 1])
  }

  lemma {:induction false} TotalWithinDemand(w: map<nat, nat>, sent: seq<Message>, lo: nat, hi: nat)
    requires hi <= |sent|
    requires forall id :: id in w ==> lo <= id < hi && w[id] <= Footprint(sent[id])
    ensures Total(w) <= Demand(sent, lo, hi)
  {
    hide Footprint;
    if hi <= lo {
      assert w.Keys == {};
    } else {
      TotalWithinDemand(w - {hi - 1}, sent, lo, hi - 1);
      if hi - 1 in w {
        TotalRemove(w, hi - 1);
      } else {
        assert w - {hi - 1} == w;
      }
    }
  }

  lemma TotalNone()
    ensures Total(map[]) == 0
  {
  }

  lemma UnionInsert(a: map<nat, nat>, b: map<nat, nat>, k: nat)
    requires k in b
    ensures a + b == (a + (b - {k}))[k := b[k]]
  {
  }

  lemma {:induction false} TotalUnion(a: map<nat, nat>, b: map<nat, nat>)
    requires a.Keys !! b.Keys
    ensures Total(a + b) == Total(a) + Total(b)
    decreases |b|
  {
    hide Total;
    if b == map[] {
      assert a + b == a;
      TotalNone();
    } else {
      var k :| k in b;
      TotalUnion(a, b - {k});
      TotalRemove(b, k);
      TotalInsert(a + (b - {k}), k, b[k]);
      UnionInsert(a, b, k);
    }
  }

  /** The receiver is ordered and has memory for everything not handed out yet. */
  ghost predicate Roomy(r: RR.RecvState, sent: seq<Message>) {
    r.order.Ordered? && Demand(sent, r.oldest, |sent|) <= r.maxMemory
  }

  /** There is room for each message of which nothing is held. */
  lemma NewFits(r: RR.RecvState, sent: seq<Message>, delivered: seq<nat>, id: nat)
    requires RR.RecvInv(r, sent, delivered) && Roomy(r, sent)
    requires r.oldest <= id < |sent| && id !in r.messages && id !in r.slices
    ensures r.memoryUsage + Footprint(sent[id]) <= r.maxMemory
  {
    var a, b := RR.Lengths(r.messages), RR.Reservations(r.slices);
    assert forall k :: k in r.messages ==> k !in r.slices && |r.messages[k]| <= Footprint(sent[k]) && r.oldest <= k by {
      HeldIsNew(r, sent, delivered);
    }
    assert forall k :: k in r.slices ==> r.oldest <= k < |sent| && b[k] == Footprint(sent[k]);
    hide Footprint;
    TotalUnion(a, b);
    var w := (a + b)[id := Footprint(sent[id])];
    TotalInsert(a + b, id, Footprint(sent[id]));
    TotalWithinDemand(w, sent, r.oldest, |sent|);
  }

  lemma DeliveredBelow(r: RR.RecvState, delivered: seq<nat>, k: nat)
    requires RR.Ledger(r, delivered) && r.order.Ordered?
    ensures k < r.oldest ==> k in delivered
  {
    if k < r.oldest {
      assert delivered[k] == k;
    }
  }

  lemma HeldIsNew(r: RR.RecvState, sent: seq<Message>, delivered: seq<nat>)
    requires RR.RecvInv(r, sent, delivered) && r.order.Ordered?
    ensures forall k :: k in r.messages ==>
      k !in r.slices && k < |sent| && |r.messages[k]| <= Footprint(sent[k]) && r.oldest <= k
  {
    forall k | k in r.messages
      ensures r.oldest <= k && k !in r.slices
    {
      assert RR.Accepted(r, k);
      assert k < r.oldest ==> k in delivered by { DeliveredBelow(r, delivered, k); }
    }
  }

  // ---------------------------------------------------------------- nothing is refused

  /** The packet's contents have arrived at the channel. */
  ghost predicate Arrived(r: RR.RecvState, p: Packet) {
    match p
    case SmallReliable(_, _, es) => forall e :: e in es ==> RR.Accepted(r, e.id)
    case ReliableSlice(_, _, sl) => RR.GotSlice(r, sl.messageId, sl.sliceIndex)
    case _ => true
  }

  /** What taking in packets keeps. */
  ghost predicate Kept(r: RR.RecvState, r': RR.RecvState, sent: seq<Message>, delivered: seq<nat>) {
    && RR.RecvInv(r', sent, delivered) && RR.Grows(r, r')
    && r'.oldest == r.oldest && r'.maxMemory == r.maxMemory && r'.order.Ordered? == r.order.Ordered?
  }

  lemma {:induction false} EntriesFit(r: RR.RecvState, sent: seq<Message>, delivered: seq<nat>, es: seq<Entry>)
    requires RR.RecvInv(r, sent, delivered) && Roomy(r, sent) && forall e :: e in es ==> GenuineEntry(sent, e)
    ensures var o := ProcessEntries(r, es);
      o.error.None? && o.state.oldest == r.oldest && o.state.maxMemory == r.maxMemory && o.state.order.Ordered?
    decreases |es|
  {
    if es != [] {
      var id := es[0].id;
      assert GenuineEntry(sent, es[0]);
      assert id !in r.slices;
      RR.ProcessMessageInv(r, sent, delivered, id);
      if r.oldest <= id && id !in r.messages {
        NewFits(r, sent, delivered, id);
      }
      hide RR.RecvInv, Demand;
      EntriesFit(RR.ProcessMessage(r, es[0].payload, id).state, sent, delivered, es[1..]);
    }
  }

  lemma SliceKeepsConfig(r: RR.RecvState, sl: Slice)
    ensures var o := RR.ProcessSlice(r, sl);
      o.state.oldest == r.oldest && o.state.maxMemory == r.maxMemory && o.state.order.Ordered? == r.order.Ordered?
  {
    hide Slicing.Process;
  }

  lemma SliceFits(r: RR.RecvState, sent: seq<Message>, delivered: seq<nat>, sl: Slice)
    requires RR.RecvInv(r, sent, delivered) && Roomy(r, sent) && RR.GenuineSlice(sent, sl)
    ensures var o := RR.ProcessSlice(r, sl);
      o.error.None? && o.state.oldest == r.oldest && o.state.maxMemory == r.maxMemory && o.state.order.Ordered?
  {
    RR.ProcessSliceInv(r, sent, delivered, sl);
    SliceKeepsConfig(r, sl);
    var id := sl.messageId;
    assert id !in r.slices ==> Footprint(sent[id]) == sl.numSlices * SLICE_SIZE;
    hide RR.RecvInv, Roomy, RR.ProcessSlice, Footprint, RR.Grows, RR.GotSlice;
    assert r.order.Ordered? by { OrderedPart(r, sent); }
    if r.oldest <= id && id !in r.messages && id !in r.slices {
      NewFits(r, sent, delivered, id);
    }
  }

  lemma TakeFits(r: RR.RecvState, c: byte, sent: seq<Message>, delivered: seq<nat>, p: Packet)
    requires RR.RecvInv(r, sent, delivered) && Roomy(r, sent) && ChannelPacket(c, sent, p)
    ensures var o := Take(r, p); o.error.None? && Kept(r, o.state, sent, delivered) && Arrived(o.state, p)
  {
    hide RR.RecvInv, Roomy, RR.Grows, RR.Accepted, RR.GotSlice, RR.ProcessSlice, ProcessEntries;
    assert r.order.Ordered? by { OrderedPart(r, sent); }
    match p {
      case SmallReliable(_, _, es) =>
        DR.ProcessEntriesInv(r, sent, delivered, es);
        EntriesFit(r, sent, delivered, es);
      case ReliableSlice(_, _, sl) =>
        RR.ProcessSliceInv(r, sent, delivered, sl);
        SliceFits(r, sent, delivered, sl);
    }
  }

  lemma OrderedPart(r: RR.RecvState, sent: seq<Message>)
    requires Roomy(r, sent)
    ensures r.order.Ordered?
  {
  }

  lemma GrowsArrived(a: RR.RecvState, b: RR.RecvState, p: Packet)
    requires Arrived(a, p) && RR.Grows(a, b)
    ensures Arrived(b, p)
  {
    hide RR.Accepted, RR.GotSlice;
  }

  ghost predicate AllArrived(r: RR.RecvState, ps: seq<Packet>) {
    forall p :: p in ps ==> Arrived(r, p)
  }

  // ---------------------------------------------------------------- everything was emitted

  /** The timer of every small message and every slice allows sending it. */
  ghost predicate AllDue(s: RS.SendState, now: Time) {
    forall id :: id in s.unacked ==>
      match s.unacked[id]
      case Small(_, lastSent) => SS.Due(lastSent, now, s.resendTime)
      case Sliced(_, _, _, _, _, lastSents) =>
        forall i :: 0 <= i < |lastSents| ==> SS.Due(lastSents[i], now, s.resendTime)
  }

  lemma {:induction false} EntryItemFound(es: seq<Entry>, it: SS.Item)
    requires it in SS.EntryItems(es)
    ensures it.SmallItem? && exists e :: e in es && e.id == it.id
  {
    if it in SS.EntryItems(es[..|es| - 1]) {
      EntryItemFound(es[..|es| - 1], it);
    } else {
      assert it == SS.SmallItem(es[|es| - 1].id) && es[|es| - 1] in es;
    }
  }

  lemma {:induction false} ItemFound(ps: seq<Packet>, it: SS.Item) returns (p: Packet)
    requires it in SS.Items(ps)
    ensures p in ps && it in SS.PacketItems(p)
  {
    hide SS.PacketItems;
    if it in SS.PacketItems(ps[|ps| - 1]) {
      p := ps[|ps| - 1];
    } else {
      p := ItemFound(ps[..|ps| - 1], it);
    }
  }

  /** An item of an arrived packet is in the channel. */
  ghost predicate ItemArrived(r: RR.RecvState, it: SS.Item) {
    match it
    case SmallItem(id) => RR.Accepted(r, id)
    case SliceItem(id, i) => RR.GotSlice(r, id, i)
  }

  lemma ArrivedItem(r: RR.RecvState, p: Packet, it: SS.Item)
    requires Arrived(r, p) && it in SS.PacketItems(p)
    ensures ItemArrived(r, it)
  {
    hide RR.Accepted, RR.GotSlice;
    if p.SmallReliable? {
      EntryItemFound(p.entries, it);
    }
  }

  lemma OutstandingArrives(s: RS.SendState, first: nat, available: nat, now: Time, r: RR.RecvState, it: SS.Item)
    requires RS.WfSend(s) && available >= s.memoryUsage + SLICE_SIZE && SS.Outstanding(s, now, it)
    requires AllArrived(r, SS.GetPackets(s, first, available, now).packets)
    ensures ItemArrived(r, it)
  {
    hide SS.Items, RR.Accepted, RR.GotSlice, Arrived, ItemArrived, SS.GetPackets, SS.Outstanding;
    SS.TickEmitsOutstandingOnce(s, first, available, now, it);
    var ps := SS.GetPackets(s, first, available, now).packets;
    var p := ItemFound(ps, it);
    ArrivedItem(r, p, it);
  }

  /** Each message that was still unacknowledged has arrived. */
  lemma UnackedArrives(
    s: RS.SendState, first: nat, available: nat, now: Time, r: RR.RecvState, r': RR.RecvState,
    c: byte, sent: seq<Message>, id: nat)
    requires Holds(s, c, sent) && available >= s.memoryUsage + SLICE_SIZE && AllDue(s, now)
    requires AllArrived(r', SS.GetPackets(s, first, available, now).packets)
    requires Known(s, map[c := r], c) && RR.Grows(r, r') && id in s.unacked
    requires id in r'.slices ==> Slicing.Partial(r'.slices[id], sent[id])
    ensures RR.Accepted(r', id)
  {
    var u := s.unacked[id];
    if u.Small? {
      OutstandingArrives(s, first, available, now, r', SS.SmallItem(id));
    } else {
      var recvR := map[c := r'];
      forall i | 0 <= i < Slicing.NumSlices(|u.message|)
        ensures GotSliceBy(recvR, c, id, i)
      {
        if u.acked[i] {
          assert MarkedAcked(u, i);
          assert GotSliceBy(map[c := r], c, id, i);
        } else {
          OutstandingArrives(s, first, available, now, r', SS.SliceItem(id, i));
        }
      }
      DS.AllSlicesGot(recvR, c, id, u.message);
      assert AcceptedBy(recvR, c, id);
    }
  }

  /** So has each message ever sent. */
  lemma AllArrive(
    s: RS.SendState, first: nat, available: nat, now: Time, r: RR.RecvState, r': RR.RecvState,
    c: byte, sent: seq<Message>, id: nat)
    requires Holds(s, c, sent) && available >= s.memoryUsage + SLICE_SIZE && AllDue(s, now)
    requires AllArrived(r', SS.GetPackets(s, first, available, now).packets)
    requires Known(s, map[c := r], c) && RR.Grows(r, r') && id < |sent|
    requires id in r'.slices ==> Slicing.Partial(r'.slices[id], sent[id])
    ensures RR.Accepted(r', id)
  {
    if id in s.unacked {
      UnackedArrives(s, first, available, now, r, r', c, sent, id);
    } else {
      assert AcceptedBy(map[c := r], c, id);
    }
  }

  lemma HeldIsSent(ch: RS.SendState, c: byte, sent: seq<Message>, p: Packet)
    requires Holds(ch, c, sent) && SS.FromChannel(c, ch.unacked, p)
    ensures ChannelPacket(c, sent, p)
  {
    hide Words, RS.HeldBytes;
  }

  lemma ChannelTickCarries(ch: RS.SendState, c: byte, sent: seq<Message>, first: nat, available: nat, now: Time)
    requires Holds(ch, c, sent)
    ensures RS.WfSend(ch) && ChannelPackets(c, sent, SS.GetPackets(ch, first, available, now).packets)
  {
    assert RS.WfSend(ch) && ch.channelId == c;
    hide Holds, SS.GetPackets, SS.FromChannel, ChannelPacket, RS.HeldBytes;
    SS.TickIsSound(ch, first, available, now);
    forall p | p in SS.GetPackets(ch, first, available, now).packets
      ensures ChannelPacket(c, sent, p)
    {
      HeldIsSent(ch, c, sent, p);
    }
  }

  lemma KnownHere(ch: RS.SendState, recvR: map<byte, RR.RecvState>, c: byte)
    requires Known(ch, recvR, c) && c in recvR
    ensures Known(ch, map[c := recvR[c]], c)
  {
    hide RR.Accepted, RR.GotSlice;
    forall id | 0 <= id < ch.nextId && id !in ch.unacked
      ensures AcceptedBy(map[c := recvR[c]], c, id)
    {
      assert AcceptedBy(recvR, c, id);
    }
    forall id, i | id in ch.unacked && MarkedAcked(ch.unacked[id], i)
      ensures GotSliceBy(map[c := recvR[c]], c, id, i)
    {
      assert GotSliceBy(recvR, c, id, i);
    }
  }
}
