/**
 How a tick of a reliable channel spends its budget (renet/src/channel/reliable.rs): it
 leaves out nothing that would still fit, and the slices of a message take turns.
 */
module SendFairness {
  import opened Common
  import opened Wire
  import opened ReliableSend
  import opened SendScheduling
  import T = ResendTimers

  // ---------------------------------------------------------------- nothing that fits is left out

  /** The budget that must be left for the item to be emitted. */
  ghost function Need(unacked: map<nat, Unacked>, it: Item): nat
    requires it.id in unacked
  {
    if unacked[it.id].Small? then |unacked[it.id].message| else SLICE_SIZE
  }

  lemma {:induction false} SliceLeftOut(b: Batch, s: SendState, now: Time, id: nat, u: Unacked, j: nat, it: Item)
    requires WfUnacked(u) && u.Sliced? && j <= u.numSlices && Wanted(s, now, id, u, j, it)
    requires CountAfter(b, s, now, id, u, j, it) == CountAfter(b, s, now, id, u, 0, it)
    ensures SliceScan(b, s, now, id, u, j).batch.available < SLICE_SIZE
  {
    hide CountAfter, Wanted, Rotated, EmitSlice, RoundOf, Due;
    if j == 0 {
      NothingWantedYet(s, now, id, u, it);
    } else {
      RoundItems(b, s, now, id, u, j - 1, it);
      WantedStep(s, now, id, u, j - 1, it);
      SliceScanItems(b, s, now, id, u, j - 1, it);
      if Wanted(s, now, id, u, j - 1, it) {
        SliceLeftOut(b, s, now, id, u, j - 1, it);
      }
    }
  }

  lemma VisitLeftOut(b: Batch, s: SendState, now: Time, it: Item)
    requires AllWf(s.unacked) && Outstanding(s, now, it)
    requires BatchItems(VisitMessage(b, s, now, it.id, s.unacked[it.id]).batch)[it] == BatchItems(b)[it]
    ensures VisitMessage(b, s, now, it.id, s.unacked[it.id]).batch.available < Need(s.unacked, it)
  {
    hide BatchItems;
    var u := s.unacked[it.id];
    assert WfUnacked(u);
    if u.Sliced? {
      RotationIsBijection(u, it.index, 0);
      SliceLeftOut(b, s, now, it.id, u, u.numSlices, it);
    } else if |u.message| <= b.available {
      CollectItems(b, s.channelId, Entry(it.id, u.message));
    }
  }

  lemma {:induction false} ScanLeftOut(s: SendState, first: nat, available: nat, now: Time, k: nat, it: Item)
    requires AllWf(s.unacked) && Outstanding(s, now, it) && it.id < k
    requires BatchItems(Scan(s, first, available, now, k).batch)[it] == 0
    ensures Scan(s, first, available, now, k).batch.available < Need(s.unacked, it)
  {
    hide BatchItems, VisitMessage, WfUnacked, Outstanding, Need;
    var b := Scan(s, first, available, now, k - 1).batch;
    if k - 1 in s.unacked {
      VisitMessageItems(b, s, now, k - 1, it);
      if it.id == k - 1 {
        VisitLeftOut(b, s, now, it);
      } else {
        ScanLeftOut(s, first, available, now, k - 1, it);
      }
    } else {
      assert it.id != k - 1 by { OutstandingIsHeld(s, now, it); }
      ScanLeftOut(s, first, available, now, k - 1, it);
    }
  }

  lemma OutstandingIsHeld(s: SendState, now: Time, it: Item)
    requires AllWf(s.unacked) && Outstanding(s, now, it)
    ensures it.id in s.unacked
  {
  }

  /** What a tick does not emit though it is due does not fit into what is left of the budget. */
  lemma NothingFittingLeftOut(s: SendState, first: nat, available: nat, now: Time, it: Item)
    requires WfSend(s) && Outstanding(s, now, it)
    ensures var t := GetPackets(s, first, available, now);
      T.Emitted(t, it) == 0 ==> t.available < Need(s.unacked, it)
  {
    hide Scan, HeldBytes, WfUnacked;
    var b := Scan(s, first, available, now, s.nextId).batch;
    FlushItems(b, s.channelId);
    if T.Emitted(GetPackets(s, first, available, now), it) == 0 {
      ScanLeftOut(s, first, available, now, s.nextId, it);
    }
  }

  // ---------------------------------------------------------------- slices take turns

  /** The last of the first `j` rounds that emits a slice, or -1. */
  ghost function LastRound(b: Batch, s: SendState, now: Time, id: nat, u: Unacked, j: nat): int
    requires WfUnacked(u) && u.Sliced? && j <= u.numSlices
  {
    if j == 0 then -1
    else if EmittedInRound(b, s, now, id, u, j - 1) then j - 1
    else LastRound(b, s, now, id, u, j - 1)
  }

  /** The loop goes on after the last slice it emitted. */
  lemma {:induction false} NextAfterLast(b: Batch, s: SendState, now: Time, id: nat, u: Unacked, j: nat)
    requires WfUnacked(u) && u.Sliced? && j <= u.numSlices
    ensures var last := LastRound(b, s, now, id, u, j);
      && -1 <= last < j
      && SliceScan(b, s, now, id, u, j).message.nextSlice == if last < 0 then u.nextSlice else Rotated(u, last) + 1
  {
    hide Rotated, EmitSlice;
    if j > 0 {
      NextAfterLast(b, s, now, id, u, j - 1);
      RotationIsBijection(u, 0, j - 1);
      SliceScanTimers(b, s, now, id, u, j - 1, Rotated(u, j - 1));
    }
  }

  lemma {:induction false} LastIsLast(b: Batch, s: SendState, now: Time, id: nat, u: Unacked, j: nat, r: nat)
    requires WfUnacked(u) && u.Sliced? && r < j <= u.numSlices && EmittedInRound(b, s, now, id, u, r)
    ensures r <= LastRound(b, s, now, id, u, j)
  {
    hide EmittedInRound;
    if r < j - 1 {
      LastIsLast(b, s, now, id, u, j - 1, r);
    }
  }

  lemma {:induction false} BudgetFalls(b: Batch, s: SendState, now: Time, id: nat, u: Unacked, i: nat, j: nat)
    requires WfUnacked(u) && u.Sliced? && i <= j <= u.numSlices
    ensures SliceScan(b, s, now, id, u, j).batch.available <= SliceScan(b, s, now, id, u, i).batch.available
  {
    hide Rotated;
    if i < j {
      BudgetFalls(b, s, now, id, u, i, j - 1);
      var v := SliceScan(b, s, now, id, u, j - 1);
      if SLICE_SIZE <= v.batch.available {
        EmitCost(v.batch, s.channelId, id, u, Rotated(u, j - 1));
      }
    }
  }

  /** The slice of round `r` is due and unacknowledged. */
  ghost predicate WantedRound(s: SendState, now: Time, u: Unacked, r: nat)
    requires WfUnacked(u) && u.Sliced? && r < u.numSlices
  {
    !u.acked[Rotated(u, r)] && Due(u.lastSents[Rotated(u, r)], now, s.resendTime)
  }

  /** A slice that is wanted is emitted if a later round emits one. */
  lemma EarlierIsEmitted(b: Batch, s: SendState, now: Time, id: nat, u: Unacked, r: nat, later: nat)
    requires WfUnacked(u) && u.Sliced? && r <= later < u.numSlices && WantedRound(s, now, u, r)
    requires EmittedInRound(b, s, now, id, u, later)
    ensures EmittedInRound(b, s, now, id, u, r)
  {
    hide SliceScan, Rotated;
    BudgetFalls(b, s, now, id, u, r, later);
  }

  lemma {:induction false} SomeRoundIsLast(b: Batch, s: SendState, now: Time, id: nat, u: Unacked, j: nat)
    requires WfUnacked(u) && u.Sliced? && j <= u.numSlices && LastRound(b, s, now, id, u, j) >= 0
    ensures LastRound(b, s, now, id, u, j) < j && EmittedInRound(b, s, now, id, u, LastRound(b, s, now, id, u, j))
  {
    hide EmittedInRound;
    if j > 0 && !EmittedInRound(b, s, now, id, u, j - 1) {
      SomeRoundIsLast(b, s, now, id, u, j - 1);
    }
  }

  /** The rounds of two slices after the loop has moved on past round `last`. */
  lemma RoundsAfter(u: Unacked, v: Unacked, last: nat, r: nat)
    requires u.Sliced? && v.Sliced? && u.numSlices == v.numSlices && u.nextSlice <= u.numSlices
    requires last < u.numSlices && r < u.numSlices && v.nextSlice == Rotated(u, last) + 1
    ensures v.nextSlice <= v.numSlices
    ensures RoundOf(v, Rotated(u, r)) == if last < r then r - last - 1 else r + u.numSlices - last - 1
  {
    ModOnce(u.nextSlice + last, u.numSlices);
    ModOnce(u.nextSlice + r, u.numSlices);
  }

  /** A slice that was passed over comes before every slice that was emitted, from now on. */
  lemma PassedOverIsNext(b: Batch, s: SendState, now: Time, id: nat, u: Unacked, i: nat, k: nat)
    requires WfUnacked(u) && u.Sliced? && i < u.numSlices && k < u.numSlices
    requires EmittedInRound(b, s, now, id, u, RoundOf(u, i))
    requires WantedRound(s, now, u, RoundOf(u, k)) && !EmittedInRound(b, s, now, id, u, RoundOf(u, k))
    ensures var v := SliceScan(b, s, now, id, u, u.numSlices).message; RoundOf(v, k) < RoundOf(v, i)
  {
    hide EmittedInRound, WantedRound, Rotated, RoundOf, SliceScan;
    var n := u.numSlices;
    RotationIsBijection(u, i, 0);
    RotationIsBijection(u, k, 0);
    NextAfterLast(b, s, now, id, u, n);
    var last := LastRound(b, s, now, id, u, n);
    LastIsLast(b, s, now, id, u, n, RoundOf(u, i));
    SomeRoundIsLast(b, s, now, id, u, n);
    if RoundOf(u, k) <= last {
      EarlierIsEmitted(b, s, now, id, u, RoundOf(u, k), last);
    }
    var v := SliceScan(b, s, now, id, u, n).message;
    RoundsAfter(u, v, last, RoundOf(u, i));
    RoundsAfter(u, v, last, RoundOf(u, k));
  }

  // ---------------------------------------------------------------- over two ticks

  lemma {:induction false} CountIsRound(b: Batch, s: SendState, now: Time, id: nat, u: Unacked, j: nat, i: nat)
    requires WfUnacked(u) && u.Sliced? && j <= u.numSlices && i < u.numSlices
    ensures RoundOf(u, i) < u.numSlices
    ensures CountAfter(b, s, now, id, u, j, SliceItem(id, i)) == CountAfter(b, s, now, id, u, 0, SliceItem(id, i)) +
      if RoundOf(u, i) < j && EmittedInRound(b, s, now, id, u, RoundOf(u, i)) then 1 else 0
  {
    hide CountAfter, EmittedInRound, Rotated, RoundOf;
    RotationIsBijection(u, i, 0);
    if j > 0 {
      CountIsRound(b, s, now, id, u, j - 1, i);
      RoundItems(b, s, now, id, u, j - 1, SliceItem(id, i));
      RotationIsBijection(u, i, j - 1);
    }
  }

  /** What a tick makes of the message and of an item of it is decided when the message is visited. */
  lemma {:induction false} DecidedAtVisit(s: SendState, first: nat, available: nat, now: Time, k: nat, it: Item)
    requires AllWf(s.unacked) && it.id in s.unacked && it.id < k
    ensures var b, r := Scan(s, first, available, now, it.id).batch, Scan(s, first, available, now, k);
      var v := VisitMessage(b, s, now, it.id, s.unacked[it.id]);
      && BatchItems(b)[it] == 0 && BatchItems(r.batch)[it] == BatchItems(v.batch)[it]
      && it.id in r.unacked && r.unacked[it.id] == v.message
  {
    hide BatchItems, VisitMessage, WfUnacked, Outstanding, HeldBytes;
    if it.id == k - 1 {
      ScanItems(s, first, available, now, it.id, it);
    } else {
      DecidedAtVisit(s, first, available, now, k - 1, it);
      if k - 1 in s.unacked {
        VisitMessageItems(Scan(s, first, available, now, k - 1).batch, s, now, k - 1, it);
      }
    }
  }

  /** The channel holds message `id`, which has a slice `i`. */
  ghost predicate HasSlice(s: SendState, id: nat, i: nat) {
    WfSend(s) && id in s.unacked && s.unacked[id].Sliced? && i < s.unacked[id].numSlices
  }

  /** The batch when the message is visited. */
  ghost function BatchAt(s: SendState, first: nat, available: nat, now: Time, id: nat): Batch
    requires AllWf(s.unacked)
  {
    Scan(s, first, available, now, id).batch
  }

  lemma TickOfSlice(s: SendState, first: nat, available: nat, now: Time, id: nat, i: nat)
    requires HasSlice(s, id, i)
    ensures var t, u, b := GetPackets(s, first, available, now), s.unacked[id], BatchAt(s, first, available, now, id);
      && RoundOf(u, i) < u.numSlices
      && T.Emitted(t, SliceItem(id, i)) == (if EmittedInRound(b, s, now, id, u, RoundOf(u, i)) then 1 else 0)
      && id in t.state.unacked && t.state.unacked[id] == SliceScan(b, s, now, id, u, u.numSlices).message
  {
    hide Scan, HeldBytes, EmittedInRound, SliceScan, RoundOf;
    var it := SliceItem(id, i);
    var u, b := s.unacked[id], BatchAt(s, first, available, now, id);
    DecidedAtVisit(s, first, available, now, s.nextId, it);
    FlushItems(Scan(s, first, available, now, s.nextId).batch, s.channelId);
    CountIsRound(b, s, now, id, u, u.numSlices, i);
    assert SliceScan(b, s, now, id, u, 0).batch == b by { NoRounds(b, s, now, id, u); }
  }

  lemma NoRounds(b: Batch, s: SendState, now: Time, id: nat, u: Unacked)
    requires WfUnacked(u) && u.Sliced?
    ensures SliceScan(b, s, now, id, u, 0).batch == b
  {
  }

  lemma OutstandingRound(s: SendState, now: Time, id: nat, k: nat)
    requires HasSlice(s, id, k)
    ensures RoundOf(s.unacked[id], k) < s.unacked[id].numSlices
    ensures Outstanding(s, now, SliceItem(id, k)) <==> WantedRound(s, now, s.unacked[id], RoundOf(s.unacked[id], k))
  {
    hide HeldBytes, Rotated;
    RotationIsBijection(s.unacked[id], k, 0);
  }

  /** What was passed over is still due later. */
  lemma StillOutstanding(s: SendState, first: nat, available: nat, now: Time, later: Time, id: nat, k: nat)
    requires HasSlice(s, id, k) && Outstanding(s, now, SliceItem(id, k)) && now <= later
    requires T.Emitted(GetPackets(s, first, available, now), SliceItem(id, k)) == 0
    ensures var s' := GetPackets(s, first, available, now).state; HasSlice(s', id, k) && Outstanding(s', later, SliceItem(id, k))
  {
    GetPacketsWf(s, first, available, now);
    hide GetPackets, HeldBytes, WfUnacked;
    T.TickSetsTimers(s, first, available, now, SliceItem(id, k));
  }

  /**
   The slices of a message take turns: if a tick emitted slice `i` and passed over slice `k`
   though it was due, then the next tick does not emit `i` without `k`, whenever it comes and
   whatever its budget.
   */
  lemma SlicesTakeTurns(
    s: SendState, first: nat, available: nat, now: Time, id: nat, i: nat, k: nat, next: nat, budget: nat, later: Time)
    requires HasSlice(s, id, i) && HasSlice(s, id, k) && now <= later && Outstanding(s, now, SliceItem(id, k))
    requires var t := GetPackets(s, first, available, now);
      T.Emitted(t, SliceItem(id, i)) == 1 && T.Emitted(t, SliceItem(id, k)) == 0
    ensures var s' := GetPackets(s, first, available, now).state;
      && AllWf(s'.unacked)
      && var t := GetPackets(s', next, budget, later);
        T.Emitted(t, SliceItem(id, i)) == 1 ==> T.Emitted(t, SliceItem(id, k)) == 1
  {
    var s' := GetPackets(s, first, available, now).state;
    GetPacketsWf(s, first, available, now);
    StillOutstanding(s, first, available, now, later, id, k);
    TickOfSlice(s, first, available, now, id, i);
    TickOfSlice(s, first, available, now, id, k);
    OutstandingRound(s, now, id, k);
    hide GetPackets, WfSend, EmittedInRound, WantedRound, Outstanding, SliceScan, RoundOf, BatchAt;
    assert HasSlice(s', id, i) by { SliceStays(s, s', id, i); }
    PassedOverIsNext(BatchAt(s, first, available, now, id), s, now, id, s.unacked[id], i, k) by { HeldIsWf(s, id, i); }
    TickOfSlice(s', next, budget, later, id, i);
    TickOfSlice(s', next, budget, later, id, k);
    OutstandingRound(s', later, id, k);
    if T.Emitted(GetPackets(s', next, budget, later), SliceItem(id, i)) == 1 {
      var u := s'.unacked[id];
      HeldIsWf(s', id, i);
      EarlierIsEmitted(BatchAt(s', next, budget, later, id), s', later, id, u, RoundOf(u, k), RoundOf(u, i));
    }
  }

  lemma SliceStays(s: SendState, s': SendState, id: nat, i: nat)
    requires HasSlice(s, id, i) && WfSend(s') && SameMessages(s.unacked, s'.unacked)
    ensures HasSlice(s', id, i)
  {
    hide WfSend;
  }

  lemma HeldIsWf(s: SendState, id: nat, i: nat)
    requires HasSlice(s, id, i)
    ensures WfUnacked(s.unacked[id]) && AllWf(s.unacked)
  {
  }
}
