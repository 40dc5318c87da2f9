/**
 How small messages are packed together (renet/src/channel/reliable.rs,
 renet/src/channel/unreliable.rs): a tick starts a new packet of small messages only if the
 next message does not fit into the one before.
 */
module PacketFilling {
  import opened Common
  import opened Wire
  import Slicing
  import RS = ReliableSend
  import SS = SendScheduling
  import U = Unreliable

  // ---------------------------------------------------------------- lists of sizes

  ghost function Sum(sizes: seq<nat>): nat {
    if sizes == [] then 0 else Sum(sizes[..|sizes| - 1]) + sizes[|sizes| - 1]
  }

  /** The first size of each list but the first does not fit into the list before. */
  ghost predicate Packed(lists: seq<seq<nat>>) {
    forall k :: 0 <= k < |lists| - 1 ==> Follows(lists[k], lists[k + 1])
  }

  ghost predicate Follows(full: seq<nat>, next: seq<nat>) {
    next != [] && Sum(full) + next[0] > SLICE_SIZE
  }

  /** The closed lists, and the one that is being filled. */
  ghost predicate Filling(closed: seq<seq<nat>>, open: seq<nat>) {
    if open == [] then closed == [] else Packed(closed + [open])
  }

  /** One more size goes into the open list if it fits, and starts a new one otherwise. */
  lemma FillMore(closed: seq<seq<nat>>, open: seq<nat>, x: nat)
    requires Filling(closed, open)
    ensures if Sum(open) + x > SLICE_SIZE then Filling(closed + [open], [x]) else Filling(closed, open + [x])
  {
    hide Follows;
    if Sum(open) + x > SLICE_SIZE {
      assert Follows(open, [x]) by { NextFollows(open, x); }
      var more := closed + [open] + [[x]];
      forall k | 0 <= k < |more| - 1
        ensures Follows(more[k], more[k + 1])
      {
        if k < |closed| {
          assert (closed + [open])[k] == more[k] && (closed + [open])[k + 1] == more[k + 1];
        }
      }
    } else {
      var more := closed + [open + [x]];
      forall k | 0 <= k < |more| - 1
        ensures Follows(more[k], more[k + 1])
      {
        assert (closed + [open])[k] == more[k] && Follows((closed + [open])[k], (closed + [open])[k + 1]);
        if k == |closed| - 1 {
          StillFollows(more[k], open, x);
        }
      }
    }
  }

  lemma NextFollows(full: seq<nat>, x: nat)
    requires Sum(full) + x > SLICE_SIZE
    ensures Follows(full, [x])
  {
  }

  lemma StillFollows(full: seq<nat>, open: seq<nat>, x: nat)
    requires Follows(full, open)
    ensures Follows(full, open + [x])
  {
  }

  // ---------------------------------------------------------------- reliable channels

  ghost function EntrySizes(es: seq<Entry>): seq<nat> {
    seq(|es|, i requires 0 <= i < |es| => SS.SerializedSize(es[i]))
  }

  /** The sizes of the messages in each packet of small reliable messages. */
  ghost function Fillings(ps: seq<Packet>): seq<seq<nat>> {
    if ps == [] then []
    else
      var p := ps[|ps| - 1];
      Fillings(ps[..|ps| - 1]) + if p.SmallReliable? then [EntrySizes(p.entries)] else []
  }

  lemma {:induction false} SizeIsSum(es: seq<Entry>)
    ensures SS.EntriesSize(es) == Sum(EntrySizes(es))
  {
    if es != [] {
      SizeIsSum(es[..|es| - 1]);
      assert EntrySizes(es)[..|es| - 1] == EntrySizes(es[..|es| - 1]);
    }
  }

  lemma FillingsMore(ps: seq<Packet>, p: Packet)
    ensures Fillings(ps + [p]) == Fillings(ps) + if p.SmallReliable? then [EntrySizes(p.entries)] else []
  {
    assert (ps + [p])[..|ps|] == ps;
  }

  ghost predicate Batched(b: SS.Batch) {
    b.smallBytes == SS.EntriesSize(b.small) && Filling(Fillings(b.packets), EntrySizes(b.small))
  }

  lemma CollectFills(b: SS.Batch, channelId: byte, e: Entry)
    requires Batched(b) && |e.payload| <= b.available
    ensures Batched(SS.Collect(b, channelId, e))
  {
    hide Filling, Fillings, SS.EntriesSize, Sum, SS.SerializedSize;
    var x := SS.SerializedSize(e);
    SizeIsSum(b.small);
    FillMore(Fillings(b.packets), EntrySizes(b.small), x);
    FillingsMore(b.packets, SmallReliable(b.sequence, channelId, b.small));
    SS.AppendEntry(b.small, e);
    SS.AppendEntry([], e);
    assert EntrySizes(b.small + [e]) == EntrySizes(b.small) + [x];
    assert EntrySizes([e]) == [x] && [] + [e] == [e];
    NoEntries();
  }

  lemma NoEntries()
    ensures SS.EntriesSize([]) == 0
  {
  }

  lemma EmitFills(b: SS.Batch, channelId: byte, id: nat, u: RS.Unacked, i: nat)
    requires RS.WfUnacked(u) && u.Sliced? && i < u.numSlices && SLICE_SIZE <= b.available && Batched(b)
    ensures Batched(SS.EmitSlice(b, channelId, id, u, i))
  {
    hide Filling, Fillings, SS.EntriesSize;
    var p := ReliableSlice(b.sequence, channelId, Slice(id, i, u.numSlices, Slicing.SliceOf(u.message, i)));
    assert SS.EmitSlice(b, channelId, id, u, i).packets == b.packets + [p];
    FillingsMore(b.packets, p);
    assert Fillings(b.packets) + [] == Fillings(b.packets);
  }

  lemma {:induction false} SliceScanFills(b: SS.Batch, s: RS.SendState, now: Time, id: nat, u: RS.Unacked, j: nat)
    requires RS.WfUnacked(u) && u.Sliced? && j <= u.numSlices && Batched(b)
    ensures Batched(SS.SliceScan(b, s, now, id, u, j).batch)
  {
    hide Batched, SS.EmitSlice, SS.Rotated;
    if j > 0 {
      SliceScanFills(b, s, now, id, u, j - 1);
      var c := SS.SliceScan(b, s, now, id, u, j - 1).batch;
      if SLICE_SIZE <= c.available {
        EmitFills(c, s.channelId, id, u, SS.Rotated(u, j - 1));
      }
    }
  }

  lemma {:induction false} ScanFills(s: RS.SendState, first: nat, available: nat, now: Time, k: nat)
    requires SS.AllWf(s.unacked)
    ensures Batched(SS.Scan(s, first, available, now, k).batch)
  {
    if k > 0 {
      ScanFills(s, first, available, now, k - 1);
      hide Batched, SS.Collect, SS.SliceScan;
      var b := SS.Scan(s, first, available, now, k - 1).batch;
      if k - 1 in s.unacked {
        var u := s.unacked[k - 1];
        if u.Sliced? {
          SliceScanFills(b, s, now, k - 1, u, u.numSlices);
        } else if |u.message| <= b.available {
          CollectFills(b, s.channelId, Entry(k - 1, u.message));
        }
      }
    }
  }

  /** A tick starts a packet of small messages only if the next message does not fit into the one before. */
  lemma TickFillsPackets(s: RS.SendState, first: nat, available: nat, now: Time)
    requires SS.AllWf(s.unacked)
    ensures Packed(Fillings(SS.GetPackets(s, first, available, now).packets))
  {
    ScanFills(s, first, available, now, s.nextId);
    hide SS.Scan, Fillings, SS.EntriesSize;
    var b := SS.Scan(s, first, available, now, s.nextId).batch;
    FillingsMore(b.packets, SmallReliable(b.sequence, s.channelId, b.small));
  }

  // ---------------------------------------------------------------- unreliable channels

  ghost function MessageSizes(ms: seq<Message>): seq<nat> {
    seq(|ms|, i requires 0 <= i < |ms| => U.MessageSize(ms[i]))
  }

  ghost function UFillings(ps: seq<Packet>): seq<seq<nat>> {
    if ps == [] then []
    else
      var p := ps[|ps| - 1];
      UFillings(ps[..|ps| - 1]) + if p.SmallUnreliable? then [MessageSizes(p.messages)] else []
  }

  lemma {:induction false} USizeIsSum(ms: seq<Message>)
    ensures U.MessagesSize(ms) == Sum(MessageSizes(ms))
  {
    if ms != [] {
      USizeIsSum(ms[..|ms| - 1]);
      assert MessageSizes(ms)[..|ms| - 1] == MessageSizes(ms[..|ms| - 1]);
    }
  }

  lemma UFillingsMore(ps: seq<Packet>, p: Packet)
    ensures UFillings(ps + [p]) == UFillings(ps) + if p.SmallUnreliable? then [MessageSizes(p.messages)] else []
  {
    assert (ps + [p])[..|ps|] == ps;
  }

  ghost predicate UBatched(b: U.UBatch) {
    b.smallBytes == U.MessagesSize(b.small) && Filling(UFillings(b.packets), MessageSizes(b.small))
  }

  lemma UCollectFills(b: U.UBatch, channelId: byte, m: Message)
    requires UBatched(b)
    ensures UBatched(U.UCollect(b, channelId, m))
  {
    hide Filling, UFillings, U.MessagesSize, Sum, U.MessageSize;
    var x := U.MessageSize(m);
    USizeIsSum(b.small);
    FillMore(UFillings(b.packets), MessageSizes(b.small), x);
    UFillingsMore(b.packets, SmallUnreliable(b.sequence, channelId, b.small));
    U.MessagesSizeAppend(b.small, m);
    U.MessagesSizeAppend([], m);
    assert MessageSizes(b.small + [m]) == MessageSizes(b.small) + [x];
    assert MessageSizes([m]) == [x] && [] + [m] == [m];
    NoMessages();
  }

  lemma NoMessages()
    ensures U.MessagesSize([]) == 0
  {
  }

  lemma {:induction false} USlicesFill(b: U.UBatch, channelId: byte, id: nat, m: Message, j: nat)
    requires j <= Slicing.NumSlices(|m|)
    ensures var c := U.USlices(b, channelId, id, m, j);
      UFillings(c.packets) == UFillings(b.packets) && c.small == b.small && c.smallBytes == b.smallBytes
  {
    hide UFillings;
    if j > 0 {
      USlicesFill(b, channelId, id, m, j - 1);
      var c := U.USlices(b, channelId, id, m, j - 1);
      UFillingsMore(c.packets, U.USlices(b, channelId, id, m, j).packets[|c.packets|]);
    }
  }

  lemma {:induction false} UScanFills(s: U.USend, first: nat, available: nat, k: nat)
    requires k <= |s.queue|
    ensures UBatched(U.UScan(s, first, available, k))
  {
    hide Filling, UFillings, U.UCollect, U.USlices, MessageSizes;
    if k == 0 {
      UNothingFilled(first, available);
    } else {
      UScanFills(s, first, available, k - 1);
      var b, m := U.UScan(s, first, available, k - 1), s.queue[k - 1];
      if |m| <= b.available {
        var paid := b.(available := b.available - |m|);
        if |m| > SLICE_SIZE {
          USlicesFill(paid, s.channelId, s.slicedId + |b.sliced|, m, Slicing.NumSlices(|m|));
        } else {
          UCollectFills(paid, s.channelId, m);
        }
      }
    }
  }

  lemma UNothingFilled(first: nat, available: nat)
    ensures UBatched(U.UBatch([], first, available, [], 0, []))
  {
  }

  /** So does a tick of an unreliable channel. */
  lemma UTickFillsPackets(s: U.USend, first: nat, available: nat)
    requires U.WfUSend(s)
    ensures Packed(UFillings(U.UGetPackets(s, first, available).packets))
  {
    UScanFills(s, first, available, |s.queue|);
    hide U.UScan, UFillings, U.MessagesSize;
    var b := U.UScan(s, first, available, |s.queue|);
    UFillingsMore(b.packets, SmallUnreliable(b.sequence, s.channelId, b.small));
  }
}
