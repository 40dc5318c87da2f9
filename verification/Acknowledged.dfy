/**
 What an acknowledgement does to the endpoint that receives it
 (renet/src/remote_connection.rs, renet/src/channel/reliable.rs): it releases exactly what
 the packets it covers carried.
 */
module Acknowledged {
  import opened Common
  import opened AckRanges
  import opened Wire
  import opened Connection
  import opened Direction
  import opened Delivery
  import opened Theorems
  import Slicing
  import Stats
  import RS = ReliableSend
  import RR = ReliableReceive
  import U = Unreliable
  import DR = DirectionReceive
  import DS = DirectionSend

  // ---------------------------------------------------------------- one channel

  /** Nothing of the message is missing any more, if `smalls` and `slices` have arrived. */
  ghost predicate Finished(u: RS.Unacked, id: nat, smalls: iset<nat>, slices: iset<(nat, nat)>) {
    match u
    case Small(_, _) => id in smalls
    case Sliced(_, _, _, _, acked, _) => forall i :: 0 <= i < |acked| ==> acked[i] || (id, i) in slices
  }

  /** Exactly the slices that have arrived are marked, and nothing else differs. */
  ghost predicate MarkedBy(u: RS.Unacked, u': RS.Unacked, id: nat, slices: iset<(nat, nat)>) {
    match u
    case Small(_, _) => u' == u
    case Sliced(_, _, _, _, acked, _) =>
      && u'.Sliced? && u' == u.(numAcked := u'.numAcked, acked := u'.acked) && |u'.acked| == |acked|
      && forall i :: 0 <= i < |acked| ==> (u'.acked[i] <==> acked[i] || (id, i) in slices)
  }

  /** The channel `s` after exactly these small messages and slices were acknowledged. */
  ghost predicate Released(s: RS.SendState, s': RS.SendState, smalls: iset<nat>, slices: iset<(nat, nat)>) {
    && s' == s.(unacked := s'.unacked, memoryUsage := s'.memoryUsage)
    && s'.unacked.Keys <= s.unacked.Keys
    && (forall id :: id in s.unacked ==> (id in s'.unacked <==> !Finished(s.unacked[id], id, smalls, slices)))
    && (forall id :: id in s'.unacked ==> MarkedBy(s.unacked[id], s'.unacked[id], id, slices))
  }

  lemma ReleasedNothing(s: RS.SendState)
    requires RS.WfSend(s)
    ensures Released(s, s, iset{}, iset{})
  {
    forall id | id in s.unacked
      ensures !Finished(s.unacked[id], id, iset{}, iset{})
    {
      if s.unacked[id].Sliced? {
        NotAllMarked(s.unacked[id]);
      }
    }
  }

  /** A held message has a slice that is not marked. */
  lemma NotAllMarked(u: RS.Unacked)
    requires RS.WfUnacked(u) && u.Sliced?
    ensures exists i :: 0 <= i < |u.acked| && !u.acked[i]
  {
    CountTrueAll(u.acked);
  }

  lemma SmallReleases(s: RS.SendState, t: RS.SendState, id: nat, smalls: iset<nat>, slices: iset<(nat, nat)>)
    requires Released(s, t, smalls, slices) && RS.WfSend(t) && RS.AckMessage(t, id).Acked?
    ensures Released(s, RS.AckMessage(t, id).state, smalls + iset{id}, slices) && RS.WfSend(RS.AckMessage(t, id).state)
  {
    RS.AckMessageWf(t, id);
    hide RS.WfSend;
    var t' := RS.AckMessage(t, id).state;
    forall k | k in s.unacked
      ensures k in t'.unacked <==> !Finished(s.unacked[k], k, smalls + iset{id}, slices)
    {
      assert k in t.unacked ==> MarkedBy(s.unacked[k], t.unacked[k], k, slices);
    }
  }

  lemma {:induction false} SmallsRelease(
    s: RS.SendState, t: RS.SendState, ids: seq<nat>, smalls: iset<nat>, slices: iset<(nat, nat)>)
    requires Released(s, t, smalls, slices) && RS.WfSend(t) && AckMessages(t, ids).Acked?
    ensures var t' := AckMessages(t, ids).state;
      Released(s, t', smalls + (iset id | id in ids), slices) && RS.WfSend(t')
    decreases |ids|
  {
    hide Released, RS.WfSend, RS.AckMessage;
    if ids == [] {
      assert smalls + (iset id | id in ids) == smalls;
    } else {
      SmallReleases(s, t, ids[0], smalls, slices);
      SmallsRelease(s, RS.AckMessage(t, ids[0]).state, ids[1..], smalls + iset{ids[0]}, slices);
      assert smalls + iset{ids[0]} + (iset id | id in ids[1..]) == smalls + (iset id | id in ids);
    }
  }

  lemma FinishedIff(u: RS.Unacked, v: RS.Unacked, id: nat, i: nat, smalls: iset<nat>, slices: iset<(nat, nat)>)
    requires u.Sliced? && MarkedBy(u, v, id, slices) && i < |u.acked|
    ensures Finished(u, id, smalls, slices + iset{(id, i)}) <==> AllTrue(v.acked[i := true])
  {
    var w := v.acked[i := true];
    if Finished(u, id, smalls, slices + iset{(id, i)}) {
      forall j | 0 <= j < |w|
        ensures w[j]
      {
        assert u.acked[j] || (id, j) in slices + iset{(id, i)};
      }
    }
    if AllTrue(w) {
      forall j | 0 <= j < |u.acked|
        ensures u.acked[j] || (id, j) in slices + iset{(id, i)}
      {
        assert w[j];
      }
    }
  }

  /** A slice of another message makes no difference. */
  lemma OtherSlice(u: RS.Unacked, v: RS.Unacked, k: nat, id: nat, i: nat, smalls: iset<nat>, slices: iset<(nat, nat)>)
    requires k != id
    ensures Finished(u, k, smalls, slices + iset{(id, i)}) <==> Finished(u, k, smalls, slices)
    ensures MarkedBy(u, v, k, slices) ==> MarkedBy(u, v, k, slices + iset{(id, i)})
  {
    assert forall j: nat :: (k, j) in slices + iset{(id, i)} <==> (k, j) in slices;
  }

  /** Of a message that is gone already, more arrived slices change nothing. */
  lemma StaysFinished(u: RS.Unacked, k: nat, id: nat, i: nat, smalls: iset<nat>, slices: iset<(nat, nat)>)
    requires Finished(u, k, smalls, slices)
    ensures Finished(u, k, smalls, slices + iset{(id, i)})
  {
  }

  lemma SliceReleases(s: RS.SendState, t: RS.SendState, id: nat, i: nat, smalls: iset<nat>, slices: iset<(nat, nat)>)
    requires Released(s, t, smalls, slices) && RS.WfSend(t) && RS.AckSlice(t, id, i).Acked?
    ensures Released(s, RS.AckSlice(t, id, i).state, smalls, slices + iset{(id, i)}) && RS.WfSend(RS.AckSlice(t, id, i).state)
  {
    assert id in t.unacked ==> t.unacked[id].Sliced? && i < |t.unacked[id].acked| == t.unacked[id].numSlices;
    RS.AckSliceWf(t, id, i);
    var t' := RS.AckSlice(t, id, i).state;
    hide RS.WfSend, Finished;
    var more := slices + iset{(id, i)};
    forall k | k in s.unacked
      ensures k in t'.unacked <==> !Finished(s.unacked[k], k, smalls, more)
      ensures k in t'.unacked ==> MarkedBy(s.unacked[k], t'.unacked[k], k, more)
    {
      if k !in t.unacked {
        StaysFinished(s.unacked[k], k, id, i, smalls, slices);
      } else if k == id {
        FinishedIff(s.unacked[k], t.unacked[k], k, i, smalls, slices);
        assert k in t'.unacked ==> MarkedBy(s.unacked[k], t'.unacked[k], k, more);
      } else {
        OtherSlice(s.unacked[k], t.unacked[k], k, id, i, smalls, slices);
      }
    }
  }

  // ---------------------------------------------------------------- memory

  lemma {:induction false} BytesSplit(a: map<nat, RS.Unacked>, b: map<nat, RS.Unacked>, n: nat)
    requires b.Keys <= a.Keys && forall id :: id in b ==> b[id].message == a[id].message
    ensures RS.HeldBytes(a, n) == RS.HeldBytes(b, n) + RS.HeldBytes(a - b.Keys, n)
  {
    if n > 0 {
      BytesSplit(a, b, n - 1);
    }
  }

  /** The memory in use falls by exactly the bytes of the messages that are gone. */
  lemma ReleasedMemory(s: RS.SendState, t: RS.SendState, smalls: iset<nat>, slices: iset<(nat, nat)>)
    requires RS.WfSend(s) && RS.WfSend(t) && Released(s, t, smalls, slices)
    ensures t.memoryUsage + RS.HeldBytes(s.unacked - t.unacked.Keys, s.nextId) == s.memoryUsage
  {
    BytesSplit(s.unacked, t.unacked, s.nextId);
  }

  // ---------------------------------------------------------------- an endpoint

  ghost predicate HasSmall(p: Packet, c: byte, id: nat) {
    p.SmallReliable? && p.channelId == c && exists e :: e in p.entries && e.id == id
  }

  ghost predicate HasSlice(p: Packet, c: byte, id: nat, i: nat) {
    p.ReliableSlice? && p.channelId == c && p.slice.messageId == id && p.slice.sliceIndex == i
  }

  /** One of the packets numbered `acked` carried small message `id` of channel `c`. */
  ghost predicate CarriedSmall(log: seq<Packet>, acked: set<nat>, c: byte, id: nat) {
    exists q :: q in acked && q < |log| && HasSmall(log[q], c, id)
  }

  /** One of them carried slice `i` of message `id`. */
  ghost predicate CarriedSlice(log: seq<Packet>, acked: set<nat>, c: byte, id: nat, i: nat) {
    exists q :: q in acked && q < |log| && HasSlice(log[q], c, id, i)
  }

  /** The small messages of channel `c` that the packets numbered `acked` carried. */
  ghost function SmallsIn(log: seq<Packet>, acked: set<nat>, c: byte): iset<nat> {
    iset id: nat | CarriedSmall(log, acked, c, id)
  }

  /** The slices of channel `c` that they carried. */
  ghost function SlicesIn(log: seq<Packet>, acked: set<nat>, c: byte): iset<(nat, nat)> {
    iset id: nat, i: nat | CarriedSlice(log, acked, c, id, i) :: (id, i)
  }

  /** Sequence `z` is above everything that the acknowledgements among them had acknowledged. */
  ghost predicate AboveAcks(log: seq<Packet>, acked: set<nat>, z: nat) {
    forall q :: q in acked && q < |log| && log[q].Ack? && log[q].ackRanges != [] ==>
      log[q].ackRanges[|log[q].ackRanges| - 1].end <= z
  }

  ghost predicate ChannelsReleased(a: map<byte, RS.SendState>, b: map<byte, RS.SendState>, log: seq<Packet>, acked: set<nat>) {
    a.Keys == b.Keys && forall c :: c in a ==>
      RS.WfSend(b[c]) && Released(a[c], b[c], SmallsIn(log, acked, c), SlicesIn(log, acked, c))
  }

  ghost predicate PendingReduced(a: seq<Range>, b: seq<Range>, log: seq<Packet>, acked: set<nat>) {
    Normal(b) && forall z: nat :: Covers(b, z) <==> Covers(a, z) && AboveAcks(log, acked, z)
  }

  /** The endpoint `e` after exactly the packets numbered `acked` were acknowledged. */
  ghost predicate AckedBy(e: Endpoint, e': Endpoint, log: seq<Packet>, acked: set<nat>) {
    && e' == e.(sendR := e'.sendR, sentPackets := e.sentPackets - acked, pendingAcks := e'.pendingAcks, stats := e'.stats)
    && ChannelsReleased(e.sendR, e'.sendR, log, acked)
    && PendingReduced(e.pendingAcks, e'.pendingAcks, log, acked)
  }

  lemma NothingIn(log: seq<Packet>, c: byte)
    ensures SmallsIn(log, {}, c) == iset{} && SlicesIn(log, {}, c) == iset{}
  {
  }

  lemma SmallsMore(log: seq<Packet>, acked: set<nat>, s: nat, c: byte)
    requires s < |log|
    ensures SmallsIn(log, acked + {s}, c) ==
      SmallsIn(log, acked, c) +
      if log[s].SmallReliable? && log[s].channelId == c then (iset id | id in Ids(log[s].entries)) else iset{}
  {
    var more := acked + {s};
    if log[s].SmallReliable? {
      IdsAre(log[s].entries);
    }
    forall id: nat
      ensures id in SmallsIn(log, more, c) <==> id in SmallsIn(log, acked, c) || HasSmall(log[s], c, id)
    {
      assert HasSmall(log[s], c, id) ==> s in more;
    }
  }

  lemma IdsAre(es: seq<Entry>)
    ensures forall id: nat :: id in Ids(es) <==> exists e :: e in es && e.id == id
  {
    forall id: nat
      ensures id in Ids(es) <==> exists e :: e in es && e.id == id
    {
      if id in Ids(es) {
        var k :| 0 <= k < |es| && Ids(es)[k] == id;
        assert es[k] in es;
      }
      if e :| e in es && e.id == id {
        var k :| 0 <= k < |es| && es[k] == e;
        assert Ids(es)[k] == id;
      }
    }
  }

  lemma SlicesMore(log: seq<Packet>, acked: set<nat>, s: nat, c: byte)
    requires s < |log|
    ensures SlicesIn(log, acked + {s}, c) ==
      SlicesIn(log, acked, c) +
      if log[s].ReliableSlice? && log[s].channelId == c then iset{(log[s].slice.messageId, log[s].slice.sliceIndex)} else iset{}
  {
    var more := acked + {s};
    forall id: nat, i: nat
      ensures (id, i) in SlicesIn(log, more, c) <==> (id, i) in SlicesIn(log, acked, c) || HasSlice(log[s], c, id, i)
    {
      assert HasSlice(log[s], c, id, i) ==> s in more;
    }
  }

  lemma AckedNothing(e: Endpoint, log: seq<Packet>)
    requires WfEndpoint(e)
    ensures AckedBy(e, e, log, {})
  {
    hide RS.WfSend, Released, U.WfUSend, RR.MemoryExact, UMemoryExact, Stats.WfStats, Exists, SmallsIn, SlicesIn;
    forall c | c in e.sendR
      ensures Released(e.sendR[c], e.sendR[c], SmallsIn(log, {}, c), SlicesIn(log, {}, c))
    {
      NothingIn(log, c);
      ReleasedNothing(e.sendR[c]);
    }
    assert e.sentPackets - {} == e.sentPackets;
  }

  /** The pending ranges after one more packet was acknowledged. */
  lemma PendingStep(a: seq<Range>, b: seq<Range>, log: seq<Packet>, acked: set<nat>, s: nat)
    requires PendingReduced(a, b, log, acked) && s < |log| && (log[s].Ack? ==> Normal(log[s].ackRanges))
    ensures var rs := if log[s].Ack? then log[s].ackRanges else [];
      PendingReduced(a, if rs == [] then b else AckedLargest(b, rs[|rs| - 1].end - 1), log, acked + {s})
  {
    hide AckedLargest, Covers;
    var rs := if log[s].Ack? then log[s].ackRanges else [];
    if rs != [] {
      AckedLargestRefinesSet(b, rs[|rs| - 1].end - 1);
    }
    forall z: nat
      ensures AboveAcks(log, acked + {s}, z) <==> AboveAcks(log, acked, z) && (rs != [] ==> rs[|rs| - 1].end <= z)
    {
    }
  }

  /** The channels after one more packet was acknowledged: its own has changed, if it has one. */
  lemma ChannelsStep(
    a: map<byte, RS.SendState>, b: map<byte, RS.SendState>, b': map<byte, RS.SendState>, log: seq<Packet>, acked: set<nat>, s: nat)
    requires ChannelsReleased(a, b, log, acked) && s < |log| && b'.Keys == b.Keys
    requires forall c :: c in b && !((log[s].SmallReliable? || log[s].ReliableSlice?) && log[s].channelId == c) ==> b'[c] == b[c]
    requires forall c :: c in b && (log[s].SmallReliable? || log[s].ReliableSlice?) && log[s].channelId == c ==>
      RS.WfSend(b'[c]) && Released(a[c], b'[c], SmallsIn(log, acked + {s}, c), SlicesIn(log, acked + {s}, c))
    ensures ChannelsReleased(a, b', log, acked + {s})
  {
    hide Released, RS.WfSend, SmallsIn, SlicesIn;
    forall c | c in a
      ensures RS.WfSend(b'[c]) && Released(a[c], b'[c], SmallsIn(log, acked + {s}, c), SlicesIn(log, acked + {s}, c))
    {
      SmallsMore(log, acked, s, c);
      SlicesMore(log, acked, s, c);
      if !((log[s].SmallReliable? || log[s].ReliableSlice?) && log[s].channelId == c) {
        assert SmallsIn(log, acked, c) + iset{} == SmallsIn(log, acked, c);
        assert SlicesIn(log, acked, c) + iset{} == SlicesIn(log, acked, c);
      }
    }
  }

  lemma ChannelStep(
    a: RS.SendState, b: RS.SendState, c: byte, log: seq<Packet>, acked: set<nat>, s: nat, o: RS.AckOutcome)
    requires RS.WfSend(b) && Released(a, b, SmallsIn(log, acked, c), SlicesIn(log, acked, c))
    requires s < |log| && (log[s].SmallReliable? || log[s].ReliableSlice?) && log[s].channelId == c && o.Acked?
    requires log[s].SmallReliable? ==> o == AckMessages(b, Ids(log[s].entries))
    requires log[s].ReliableSlice? ==> o == RS.AckSlice(b, log[s].slice.messageId, log[s].slice.sliceIndex)
    ensures RS.WfSend(o.state) && Released(a, o.state, SmallsIn(log, acked + {s}, c), SlicesIn(log, acked + {s}, c))
  {
    hide Released, RS.WfSend, SmallsIn, SlicesIn, AckMessages, RS.AckSlice;
    SmallsMore(log, acked, s, c);
    SlicesMore(log, acked, s, c);
    assert SmallsIn(log, acked, c) + iset{} == SmallsIn(log, acked, c);
    assert SlicesIn(log, acked, c) + iset{} == SlicesIn(log, acked, c);
    if log[s].SmallReliable? {
      SmallsRelease(a, b, Ids(log[s].entries), SmallsIn(log, acked, c), SlicesIn(log, acked, c));
    } else {
      SliceReleases(a, b, log[s].slice.messageId, log[s].slice.sliceIndex, SmallsIn(log, acked, c), SlicesIn(log, acked, c));
    }
  }

  /** One more sequence is acknowledged. */
  lemma AckOneIs(e: Endpoint, t: Endpoint, log: seq<Packet>, acked: set<nat>, s: nat)
    requires AckedBy(e, t, log, acked) && Stats.WfStats(t.stats) && !AckOne(t, s).status.Panicked?
    requires s < |log| && s in t.sentPackets && t.sentPackets[s].info == InfoOf(log[s])
    requires log[s].Ack? ==> Normal(log[s].ackRanges)
    ensures AckedBy(e, AckOne(t, s), log, acked + {s})
  {
    hide ChannelsReleased, PendingReduced, AckedLargest, AckMessages, RS.AckSlice, Stats.WfStats, Stats.CountAcked, Normal, Ids;
    var t' := AckOne(t, s);
    PendingStep(e.pendingAcks, t.pendingAcks, log, acked, s);
    assert e.sentPackets - acked - {s} == e.sentPackets - (acked + {s});
    AckOneChannels(e, t, log, acked, s);
    assert log[s].Ack? && log[s].ackRanges != [] ==> log[s].ackRanges[|log[s].ackRanges| - 1].end > 0 by {
      LastIsPositive(log[s]);
    }
  }

  lemma LastIsPositive(p: Packet)
    requires p.Ack? && p.ackRanges != [] ==> Normal(p.ackRanges)
    ensures p.Ack? && p.ackRanges != [] ==> p.ackRanges[|p.ackRanges| - 1].end > 0
  {
  }

  lemma AckOneChannels(e: Endpoint, t: Endpoint, log: seq<Packet>, acked: set<nat>, s: nat)
    requires ChannelsReleased(e.sendR, t.sendR, log, acked) && Stats.WfStats(t.stats) && !AckOne(t, s).status.Panicked?
    requires s < |log| && s in t.sentPackets && t.sentPackets[s].info == InfoOf(log[s])
    ensures ChannelsReleased(e.sendR, AckOne(t, s).sendR, log, acked + {s})
  {
    hide Released, RS.WfSend, SmallsIn, SlicesIn, AckMessages, RS.AckSlice, AckedLargest, Stats.CountAcked, Stats.WfStats, Ids;
    var p := log[s];
    if p.SmallReliable? {
      ChannelStep(e.sendR[p.channelId], t.sendR[p.channelId], p.channelId, log, acked, s,
                  AckMessages(t.sendR[p.channelId], Ids(p.entries)));
    } else if p.ReliableSlice? {
      ChannelStep(e.sendR[p.channelId], t.sendR[p.channelId], p.channelId, log, acked, s,
                  RS.AckSlice(t.sendR[p.channelId], p.slice.messageId, p.slice.sliceIndex));
    }
    ChannelsStep(e.sendR, t.sendR, AckOne(t, s).sendR, log, acked, s);
  }

  ghost predicate AcksNormal(log: seq<Packet>) {
    forall q :: 0 <= q < |log| && log[q].Ack? ==> Normal(log[q].ackRanges)
  }

  /** The tracked sequences one after the other. */
  lemma {:induction false} AckAllIs(e: Endpoint, log: seq<Packet>, ss: seq<nat>)
    requires WfEndpoint(e) && Stats.WfStats(e.stats) && TrackOk(e.sentPackets, log) && AcksNormal(log)
    requires DS.Increasing(ss) && (forall k :: 0 <= k < |ss| ==> ss[k] in e.sentPackets) && !AckAll(e, ss).status.Panicked?
    ensures AckedBy(e, AckAll(e, ss), log, Elements(ss))
  {
    hide WfEndpoint, Stats.WfStats, AckOne, AckedBy, InfoOf, Normal;
    if ss == [] {
      AckedNothing(e, log);
      assert Elements([]) == {};
    } else {
      var n := |ss| - 1;
      var before := ss[..n];
      AckAllIs(e, log, before);
      var t := AckAll(e, before);
      assert ss[n] !in before;
      assert Elements(ss) == Elements(before) + {ss[n]};
      assert t.sentPackets == e.sentPackets - Elements(before) by { AckedTracked(e, t, log, Elements(before)); }
      AckOneIs(e, t, log, Elements(before), ss[n]);
    }
  }

  lemma AckedTracked(e: Endpoint, t: Endpoint, log: seq<Packet>, acked: set<nat>)
    requires AckedBy(e, t, log, acked)
    ensures t.sentPackets == e.sentPackets - acked
  {
    hide ChannelsReleased, PendingReduced;
  }

  /** The sequences that are tracked and that the ranges cover. */
  ghost function Newly(sent: map<nat, PacketSent>, rs: seq<Range>): set<nat> {
    set q | q in sent && Covers(rs, q)
  }

  lemma NewlyAre(sent: map<nat, PacketSent>, rs: seq<Range>)
    requires Normal(rs)
    ensures DS.Increasing(NewAcks(sent, rs)) && Elements(NewAcks(sent, rs)) == Newly(sent, rs)
    ensures forall k :: 0 <= k < |NewAcks(sent, rs)| ==> NewAcks(sent, rs)[k] in sent
  {
    DS.NewAcksSpec(sent, rs);
    hide Covers, NewAcks, DS.Increasing;
    var ss := NewAcks(sent, rs);
    assert forall k :: 0 <= k < |ss| ==> ss[k] in ss;
  }

  /** The endpoint with the acknowledgement's own packet noted. */
  function Noted(e: Endpoint, s: nat): Endpoint {
    e.(pendingAcks := AddAck(e.pendingAcks, s))
  }

  lemma NotedWf(e: Endpoint, s: nat)
    requires WfEndpoint(e)
    ensures WfEndpoint(Noted(e, s))
  {
    AddAckRefinesSet(e.pendingAcks, s);
    hide AddAck, Covers, Normal, RS.WfSend, U.WfUSend, RR.MemoryExact, UMemoryExact, Stats.WfStats, Exists;
  }

  lemma LogAcksNormal(log: seq<Packet>, h: History)
    requires LogOk(log, h)
    ensures AcksNormal(log)
  {
    forall q | 0 <= q < |log| && log[q].Ack?
      ensures Normal(log[q].ackRanges)
    {
      assert Genuine(h, log[q]);
    }
  }

  /** What the wire gives for an acknowledgement of the peer. */
  lemma AckArrives(s: System, i: nat)
    requires SysInv(s) && Enabled(s, DoDeliver(i)) && i < |s.yx.log| && s.yx.log[i].Ack? && Alive(s.x)
    ensures Stats.WfStats(s.x.stats) && Normal(s.yx.log[i].ackRanges)
    ensures ProcessPacket(s.x, s.yx.wire[i]) ==
      AckAll(Noted(s.x, s.yx.log[i].sequence), NewAcks(s.x.sentPackets, s.yx.log[i].ackRanges))
  {
    hide SysInv, WfEndpoint, Decode, Encode, Encodable, Normal, AckAll, NewAcks, AddAck, Stats.WfStats;
    SwapInv(s);
    SenderPart(Swap(s));
    WirePacket(s.y, s.yx, s.hyx, i);
    DR.GenuineDecodes(s.hyx, s.yx.log[i]);
    WfStatsOf(s.x);
  }

  lemma TrackedParts(s: System)
    requires SysInv(s)
    ensures TrackOk(s.x.sentPackets, s.xy.log) && LogOk(s.xy.log, s.hxy)
  {
    SenderPart(s);
    hide SysInv, WireOk, LogOk, TrackOk, ChannelsOk, SendROk, SendUOk, Consecutive;
  }

  lemma AckReleasesIn(s: System, i: nat)
    requires SysInv(s) && Enabled(s, DoDeliver(i)) && i < |s.yx.log| && s.yx.log[i].Ack? && Alive(s.x)
    ensures Stats.WfStats(s.x.stats)
    ensures AckedBy(Noted(s.x, s.yx.log[i].sequence), ProcessPacket(s.x, s.yx.wire[i]), s.xy.log,
                    Newly(s.x.sentPackets, s.yx.log[i].ackRanges))
  {
    hide SysInv, WfEndpoint, ProcessPacket, AckAll, NewAcks, AddAck, Stats.WfStats, AckedBy, Newly, Normal, TrackOk, LogOk,
      DS.Increasing;
    AckArrives(s, i);
    DeliverStep(s, i);
    TrackedParts(s);
    LogAcksNormal(s.xy.log, s.hxy);
    var e := Noted(s.x, s.yx.log[i].sequence);
    NotedWf(s.x, s.yx.log[i].sequence);
    NewlyAre(s.x.sentPackets, s.yx.log[i].ackRanges);
    AckAllIs(e, s.xy.log, NewAcks(s.x.sentPackets, s.yx.log[i].ackRanges));
  }

  /**
   In every run, an acknowledgement of the peer changes its receiver as follows, and in
   nothing else. The sequences it covers are no longer tracked. In each reliable channel a
   small message is gone exactly if one of those packets carried it, a sliced one exactly if
   each of its slices was marked before or carried by one of them; in a sliced message that
   stays exactly these slices are marked. And of the pending ranges exactly what the
   acknowledgements among those packets had acknowledged is gone.
   */
  lemma AckReleasesExactly(run: seq<System>, i: nat)
    requires IsRun(run) && Enabled(Last(run), DoDeliver(i)) && Alive(Last(run).x)
    requires i < |Last(run).yx.log| && Last(run).yx.log[i].Ack?
    ensures Stats.WfStats(Last(run).x.stats)
    ensures var s := Last(run);
      AckedBy(Noted(s.x, s.yx.log[i].sequence), ProcessPacket(s.x, s.yx.wire[i]), s.xy.log,
              Newly(s.x.sentPackets, s.yx.log[i].ackRanges))
  {
    hide Step, Initial, SysInv, ProcessPacket, AckedBy, Enabled;
    RunInv(run);
    AckReleasesIn(Last(run), i);
  }

  // ---------------------------------------------------------------- packet by packet

  lemma ReleasedAt(e: Endpoint, t: Endpoint, log: seq<Packet>, acked: set<nat>, c: byte)
    requires AckedBy(e, t, log, acked) && c in e.sendR
    ensures c in t.sendR && RS.WfSend(t.sendR[c])
    ensures Released(e.sendR[c], t.sendR[c], SmallsIn(log, acked, c), SlicesIn(log, acked, c))
  {
    hide RS.WfSend, Released, PendingReduced;
  }

  /** A small message that a genuine packet carries is held as such, if it is still held. */
  lemma HeldAsSmall(ch: RS.SendState, h: History, p: Packet, id: nat)
    requires p.SmallReliable? && Holds(ch, p.channelId, At(h.sent, p.channelId)) && Genuine(h, p) && HasSmall(p, p.channelId, id)
    ensures id in ch.unacked ==> ch.unacked[id].Small?
  {
    var e :| e in p.entries && e.id == id;
    assert GenuineEntry(At(h.sent, p.channelId), e);
    assert id in ch.unacked ==> RS.WfUnacked(ch.unacked[id]);
  }

  lemma HeldAsSliced(ch: RS.SendState, h: History, p: Packet)
    requires p.ReliableSlice? && Holds(ch, p.channelId, At(h.sent, p.channelId)) && Genuine(h, p)
    ensures p.slice.messageId in ch.unacked ==>
      ch.unacked[p.slice.messageId].Sliced? && p.slice.sliceIndex < |ch.unacked[p.slice.messageId].acked|
  {
    assert p.slice.messageId in ch.unacked ==> RS.WfUnacked(ch.unacked[p.slice.messageId]);
  }

  /** Nothing of the packet is held any more. */
  ghost predicate Settled(sendR: map<byte, RS.SendState>, pending: seq<Range>, p: Packet) {
    match p
    case SmallReliable(_, c, es) => c in sendR && forall e :: e in es ==> e.id !in sendR[c].unacked
    case ReliableSlice(_, c, sl) =>
      && c in sendR
      && (sl.messageId in sendR[c].unacked ==>
           MarkedAcked(sendR[c].unacked[sl.messageId], sl.sliceIndex))
    case Ack(_, rs) => rs != [] ==> forall z: nat :: Covers(pending, z) ==> rs[|rs| - 1].end <= z
    case _ => true
  }

  lemma PacketSettles(e: Endpoint, t: Endpoint, log: seq<Packet>, h: History, acked: set<nat>, q: nat)
    requires AckedBy(e, t, log, acked) && q in acked && q < |log| && Genuine(h, log[q])
    requires SendROk(e.sendR, h) && (log[q].SmallReliable? || log[q].ReliableSlice? ==> log[q].channelId in e.sendR)
    ensures Settled(t.sendR, t.pendingAcks, log[q])
  {
    hide RS.WfSend, Holds, Genuine, AckedBy;
    var p := log[q];
    match p {
      case SmallReliable(_, c, es) =>
        ReleasedAt(e, t, log, acked, c);
        forall en | en in es
          ensures en.id !in t.sendR[c].unacked
        {
          assert HasSmall(p, c, en.id);
          assert CarriedSmall(log, acked, c, en.id);
          HeldAsSmall(e.sendR[c], h, p, en.id);
        }
      case ReliableSlice(_, c, sl) =>
        ReleasedAt(e, t, log, acked, c);
        assert HasSlice(p, c, sl.messageId, sl.sliceIndex);
        assert CarriedSlice(log, acked, c, sl.messageId, sl.sliceIndex);
        HeldAsSliced(e.sendR[c], h, p);
      case Ack(_, rs) =>
        if rs != [] {
          PendingSettles(e, t, log, acked, q);
        }
      case _ =>
    }
  }

  lemma PendingSettles(e: Endpoint, t: Endpoint, log: seq<Packet>, acked: set<nat>, q: nat)
    requires AckedBy(e, t, log, acked) && q in acked && q < |log| && log[q].Ack? && log[q].ackRanges != []
    ensures forall z: nat :: Covers(t.pendingAcks, z) ==> log[q].ackRanges[|log[q].ackRanges| - 1].end <= z
  {
    hide ChannelsReleased, Covers;
  }

  lemma SendingOf(s: System, q: nat)
    requires SysInv(s) && q in s.x.sentPackets
    ensures SendROk(s.x.sendR, s.hxy) && q < |s.xy.log| && Genuine(s.hxy, s.xy.log[q])
    ensures s.xy.log[q].SmallReliable? || s.xy.log[q].ReliableSlice? ==> s.xy.log[q].channelId in s.x.sendR
  {
    SenderPart(s);
    hide SysInv, WireOk, SendROk, SendUOk, Consecutive, Genuine, InfoOf;
  }

  /**
   In every run, once an acknowledgement of a tracked packet is processed, the packet is no
   longer tracked, no small message it carried is held, its slice is marked or its message
   gone, and if it was itself an acknowledgement, nothing that it acknowledged is pending.
   */
  lemma AcknowledgedIsSettled(run: seq<System>, i: nat, q: nat)
    requires IsRun(run) && Enabled(Last(run), DoDeliver(i)) && Alive(Last(run).x)
    requires i < |Last(run).yx.log| && Last(run).yx.log[i].Ack?
    requires q in Last(run).x.sentPackets && Covers(Last(run).yx.log[i].ackRanges, q)
    ensures Stats.WfStats(Last(run).x.stats) && q < |Last(run).xy.log|
    ensures var x' := ProcessPacket(Last(run).x, Last(run).yx.wire[i]);
      q !in x'.sentPackets && Settled(x'.sendR, x'.pendingAcks, Last(run).xy.log[q])
  {
    hide Step, Initial, SysInv, ProcessPacket, AckedBy, WfEndpoint, SendROk, Genuine, Settled, AddAck;
    RunInv(run);
    var s := Last(run);
    AckReleasesIn(s, i);
    SendingOf(s, q);
    var e, t := Noted(s.x, s.yx.log[i].sequence), ProcessPacket(s.x, s.yx.wire[i]);
    var acked := Newly(s.x.sentPackets, s.yx.log[i].ackRanges);
    AckedTracked(e, t, s.xy.log, acked);
    PacketSettles(e, t, s.xy.log, s.hxy, acked, q);
  }

  /** In every run, the memory of each channel falls by exactly the bytes of the messages that are gone. */
  lemma AckFreesExactly(run: seq<System>, i: nat, c: byte)
    requires IsRun(run) && Enabled(Last(run), DoDeliver(i)) && Alive(Last(run).x) && c in Last(run).x.sendR
    requires i < |Last(run).yx.log| && Last(run).yx.log[i].Ack?
    ensures Stats.WfStats(Last(run).x.stats)
    ensures var ch, x' := Last(run).x.sendR[c], ProcessPacket(Last(run).x, Last(run).yx.wire[i]);
      && c in x'.sendR
      && x'.sendR[c].memoryUsage + RS.HeldBytes(ch.unacked - x'.sendR[c].unacked.Keys, ch.nextId) == ch.memoryUsage
  {
    hide Step, Initial, SysInv, ProcessPacket, AckedBy, WfEndpoint, AddAck, RS.HeldBytes, Released;
    RunInv(run);
    var s := Last(run);
    AckReleasesIn(s, i);
    var e, t := Noted(s.x, s.yx.log[i].sequence), ProcessPacket(s.x, s.yx.wire[i]);
    var acked := Newly(s.x.sentPackets, s.yx.log[i].ackRanges);
    ReleasedAt(e, t, s.xy.log, acked, c);
    assert RS.WfSend(s.x.sendR[c]) by {
      SenderAt(s, c);
    }
    ReleasedMemory(s.x.sendR[c], t.sendR[c], SmallsIn(s.xy.log, acked, c), SlicesIn(s.xy.log, acked, c));
  }
}
