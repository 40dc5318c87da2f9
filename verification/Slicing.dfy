/**
 Splitting of large messages into slices and their reassembly
 (renet/src/channel/slice_constructor.rs and the slicing loops of both send channels).
 */
module Slicing {
  import opened Common

  function NumSlices(len: nat): nat {
    (len + SLICE_SIZE - 1) / SLICE_SIZE
  }

  function SliceEnd(len: nat, i: nat): nat
    requires i < NumSlices(len)
  {
    if i == NumSlices(len) - 1 then len else (i + 1) * SLICE_SIZE
  }

  /** The payload of slice `i` of message `m`. */
  function SliceOf(m: Message, i: nat): (s: Message)
    requires i < NumSlices(|m|)
    ensures 0 < |s| <= SLICE_SIZE
    ensures i < NumSlices(|m|) - 1 ==> |s| == SLICE_SIZE
  {
    m[i * SLICE_SIZE..SliceEnd(|m|, i)]
  }

  /** The state of a reassembly in progress. */
  datatype Constructor = Constructor(
    numSlices: nat,
    numReceived: nat,
    received: seq<bool>,
    data: seq<byte>)

  datatype SliceResult =
    | Incomplete
    | Complete(message: Message)
    | InvalidSlice
    | SlicePanic // an index out of bounds or an underflow

  datatype SliceOutcome = SliceOutcome(constructor_: Constructor, result: SliceResult)

  function Fresh(numSlices: nat): Constructor {
    Constructor(numSlices, 0, seq(numSlices, _ => false), seq(numSlices * SLICE_SIZE, _ => 0))
  }

  /** `Vec::resize` with zero fill. */
  function Resize(s: seq<byte>, len: nat): (r: seq<byte>)
    ensures |r| == len
    ensures forall p :: 0 <= p < len && p < |s| ==> r[p] == s[p]
  {
    if len <= |s| then s[..len] else s + seq(len - |s|, _ => 0)
  }

  /** Overwrites `s[start..start + |bytes|]` with `bytes`. */
  function CopyInto(s: seq<byte>, start: nat, bytes: seq<byte>): (r: seq<byte>)
    requires start + |bytes| <= |s|
    ensures |r| == |s|
    ensures forall p :: 0 <= p < |s| ==>
      r[p] == if start <= p < start + |bytes| then bytes[p - start] else s[p]
  {
    s[..start] + bytes + s[start + |bytes|..]
  }

  /** Whether the length of slice `i` of `numSlices` is acceptable. */
  predicate ValidLength(numSlices: nat, i: nat, len: nat) {
    if i + 1 == numSlices then len <= SLICE_SIZE else len == SLICE_SIZE
  }

  /** Stores a slice that had not been received before. */
  function Store(c: Constructor, i: nat, bytes: seq<byte>): Option<Constructor>
    requires i < |c.received| && ValidLength(c.numSlices, i, |bytes|)
  {
    var start := i * SLICE_SIZE;
    var data := if i + 1 == c.numSlices then Resize(c.data, start + |bytes|) else c.data;
    if start + |bytes| <= |data| then
      Some(c.(numReceived := c.numReceived + 1,
              received := c.received[i := true],
              data := CopyInto(data, start, bytes)))
    else None
  }

  /** `SliceConstructor::process_slice`. */
  function Process(c: Constructor, i: nat, bytes: seq<byte>): SliceOutcome {
    if c.numSlices == 0 then SliceOutcome(c, SlicePanic)
    else if !ValidLength(c.numSlices, i, |bytes|) then SliceOutcome(c, InvalidSlice)
    else if |c.received| <= i then SliceOutcome(c, SlicePanic)
    else
      var stored := if c.received[i] then Some(c) else Store(c, i, bytes);
      if stored.None? then SliceOutcome(c, SlicePanic)
      else if stored.value.numReceived == c.numSlices then
        SliceOutcome(stored.value.(data := []), Complete(stored.value.data))
      else SliceOutcome(stored.value, Incomplete)
  }

  /**
   An unfinished reassembly of message `m`: exactly the bytes of the received slices
   are in place, and the buffer has its final length once the last slice is in.
   */
  ghost predicate Partial(c: Constructor, m: Message) {
    var n := NumSlices(|m|);
    && 0 < |m|
    && c.numSlices == n == |c.received|
    && c.numReceived == CountTrue(c.received) < n
    && |c.data| == (if c.received[n - 1] then |m| else n * SLICE_SIZE)
    && forall p :: 0 <= p < |m| && c.received[p / SLICE_SIZE] ==> c.data[p] == m[p]
  }

  lemma FreshIsPartial(m: Message)
    requires 0 < |m|
    ensures Partial(Fresh(NumSlices(|m|)), m)
  {
    CountTrueNone(Fresh(NumSlices(|m|)).received);
  }

  /** Storing a genuine slice puts its bytes, and no others, in place. */
  lemma StoreGenuine(c: Constructor, m: Message, i: nat)
    requires Partial(c, m) && i < NumSlices(|m|) && !c.received[i]
    ensures ValidLength(c.numSlices, i, |SliceOf(m, i)|)
    ensures
      var s := Store(c, i, SliceOf(m, i));
      && s.Some?
      && s.value.numSlices == c.numSlices
      && s.value.received == c.received[i := true]
      && s.value.numReceived == CountTrue(s.value.received)
      && |s.value.data| == (if s.value.received[NumSlices(|m|) - 1] then |m| else |c.data|)
      && forall p :: 0 <= p < |m| && s.value.received[p / SLICE_SIZE] ==>
        p < |s.value.data| && s.value.data[p] == m[p]
  {
    CountTrueSet(c.received, i);
    var bytes := SliceOf(m, i);
    var d := Store(c, i, bytes).value.data;
    forall p | 0 <= p < |m| && c.received[i := true][p / SLICE_SIZE]
      ensures p < |d| && d[p] == m[p]
    {
      if p / SLICE_SIZE == i {
        assert d[p] == bytes[p - i * SLICE_SIZE];
      }
    }
  }

  /**
   One genuine slice: the message appears, byte for byte, exactly when this slice was
   the last one missing.
   */
  lemma ProcessGenuine(c: Constructor, m: Message, i: nat)
    requires Partial(c, m) && i < NumSlices(|m|)
    ensures
      var o := Process(c, i, SliceOf(m, i));
      var received := c.received[i := true];
      && o.constructor_.received == received
      && o.constructor_.numSlices == c.numSlices
      && (if AllTrue(received)
          then o.result == Complete(m)
          else o.result == Incomplete && Partial(o.constructor_, m))
  {
    var received := c.received[i := true];
    CountTrueAll(received);
    CountTrueAll(c.received);
    if c.received[i] {
      assert received == c.received;
    } else {
      StoreGenuine(c, m, i);
      var s := Store(c, i, SliceOf(m, i)).value;
      if AllTrue(received) {
        assert s.data == m;
      }
    }
  }

  /** Feeds slices `order[0], order[1], ...` of `m` to a fresh constructor. */
  ghost function Feed(m: Message, order: seq<nat>): SliceOutcome
    requires forall k :: 0 <= k < |order| ==> order[k] < NumSlices(|m|)
  {
    if order == [] then SliceOutcome(Fresh(NumSlices(|m|)), Incomplete)
    else
      var n := |order| - 1;
      Process(Feed(m, order[..n]).constructor_, order[n], SliceOf(m, order[n]))
  }

  ghost predicate Arrived(order: seq<nat>, n: nat) {
    forall i :: 0 <= i < n ==> i in order
  }

  /** The flags record exactly the indices that arrived. */
  ghost predicate Recorded(received: seq<bool>, order: seq<nat>) {
    forall i :: 0 <= i < |received| ==> (received[i] <==> i in order)
  }

  lemma RecordOne(received: seq<bool>, order: seq<nat>, i: nat)
    requires Recorded(received, order) && i < |received|
    ensures Recorded(received[i := true], order + [i])
    ensures AllTrue(received[i := true]) <==> Arrived(order + [i], |received|)
  {
    var r := received[i := true];
    forall j | 0 <= j < |r|
      ensures r[j] <==> j in order + [i]
    {
      assert j in order + [i] <==> j in order || j == i;
    }
  }

  /** Processing slice `i` after the slices of `order`, none of which completed the message. */
  lemma FeedStep(m: Message, order: seq<nat>, c: Constructor, i: nat)
    requires Partial(c, m) && Recorded(c.received, order) && i < NumSlices(|m|)
    ensures
      var o := Process(c, i, SliceOf(m, i));
      if Arrived(order + [i], NumSlices(|m|)) then o.result == Complete(m)
      else o.result == Incomplete && Partial(o.constructor_, m) && Recorded(o.constructor_.received, order + [i])
  {
    RecordOne(c.received, order, i);
    ProcessGenuine(c, m, i);
  }

  lemma {:induction false} FeedState(m: Message, order: seq<nat>)
    requires 0 < |m|
    requires forall k :: 0 <= k < |order| ==> order[k] < NumSlices(|m|)
    requires !Arrived(order, NumSlices(|m|))
    ensures var o := Feed(m, order);
      o.result == Incomplete && Partial(o.constructor_, m) && Recorded(o.constructor_.received, order)
  {
    if order == [] {
      FreshIsPartial(m);
    } else {
      var n := |order| - 1;
      var before := order[..n];
      assert order == before + [order[n]];
      assert !Arrived(before, NumSlices(|m|));
      FeedState(m, before);
      FeedStep(m, before, Feed(m, before).constructor_, order[n]);
    }
  }

  /**
   Reassembly: in any arrival order and with any duplicates, nothing is produced until
   every index has arrived, and the arrival that completes the set yields `m` itself.
   */
  lemma Reassembly(m: Message, order: seq<nat>, last: nat)
    requires 0 < |m| && last < NumSlices(|m|)
    requires forall k :: 0 <= k < |order| ==> order[k] < NumSlices(|m|)
    requires !Arrived(order, NumSlices(|m|))
    ensures Feed(m, order).result == Incomplete
    ensures Feed(m, order + [last]).result ==
            if Arrived(order + [last], NumSlices(|m|)) then Complete(m) else Incomplete
  {
    FeedState(m, order);
    assert (order + [last])[..|order|] == order;
    FeedStep(m, order, Feed(m, order).constructor_, last);
  }

  /** The slice buffer of one incoming message. */
  class SliceConstructor {
    const numSlices: nat
    var numReceivedSlices: nat
    var received: seq<bool>
    var slicedData: seq<byte>

    ghost function Model(): Constructor
      reads this
    {
      Constructor(numSlices, numReceivedSlices, received, slicedData)
    }

    constructor (numSlices: nat)
      ensures Model() == Fresh(numSlices)
    {
      this.numSlices := numSlices;
      numReceivedSlices := 0;
      received := seq(numSlices, _ => false);
      slicedData := seq(numSlices * SLICE_SIZE, _ => 0);
    }

    /** Where the source panics, the result says so and nothing is changed. */
    method ProcessSlice(sliceIndex: nat, bytes: seq<byte>) returns (r: SliceResult)
      modifies this
      ensures Process(old(Model()), sliceIndex, bytes) == SliceOutcome(Model(), r)
    {
      if numSlices == 0 {
        return SlicePanic;
      }
      var isLastSlice := sliceIndex == numSlices - 1;
      if isLastSlice {
        if |bytes| > SLICE_SIZE {
          return InvalidSlice;
        }
      } else if |bytes| != SLICE_SIZE {
        return InvalidSlice;
      }

      if sliceIndex >= |received| {
        return SlicePanic;
      }
      if !received[sliceIndex] {
        var data := slicedData;
        if isLastSlice {
          data := Resize(data, (numSlices - 1) * SLICE_SIZE + |bytes|);
        }
        var start := sliceIndex * SLICE_SIZE;
        if start + |bytes| > |data| {
          return SlicePanic;
        }
        received := received[sliceIndex := true];
        numReceivedSlices := numReceivedSlices + 1;
        slicedData := CopyInto(data, start, bytes);
      }

      if numReceivedSlices == numSlices {
        var payload := slicedData;
        slicedData := [];
        return Complete(payload);
      }
      return Incomplete;
    }
  }
}
