/**
 The list of packet sequences still to be acknowledged, kept as half-open ranges
 (`pending_acks`, `add_pending_ack` and `acked_largest` in renet/src/remote_connection.rs).
 */
module AckRanges {

  datatype Range = Range(start: nat, end: nat)

  /** Limit applied when a range is appended. */
  const MAX_RANGES: nat := 64

  /** Ranges are non-empty, sorted, disjoint and not even adjacent. */
  predicate Normal(rs: seq<Range>) {
    && (forall i :: 0 <= i < |rs| ==> rs[i].start < rs[i].end)
    && (forall i, j :: 0 <= i < j < |rs| ==> rs[i].end < rs[j].start)
  }

  /** `x` belongs to the set of sequences that `rs` stands for. */
  ghost predicate Covers(rs: seq<Range>, x: nat) {
    exists i :: 0 <= i < |rs| && rs[i].start <= x < rs[i].end
  }

  ghost predicate InRange(r: Range, x: nat) {
    r.start <= x < r.end
  }

  lemma CoversCons(r: Range, rs: seq<Range>, x: nat)
    ensures Covers([r] + rs, x) <==> InRange(r, x) || Covers(rs, x)
  {
    var all := [r] + rs;
    if Covers(rs, x) {
      var i :| 0 <= i < |rs| && rs[i].start <= x < rs[i].end;
      assert all[i + 1] == rs[i];
    }
    if InRange(r, x) {
      assert all[0] == r;
    }
    if Covers(all, x) && !InRange(r, x) {
      var i :| 0 <= i < |all| && all[i].start <= x < all[i].end;
      assert rs[i - 1] == all[i];
    }
  }

  lemma NormalCons(r: Range, rs: seq<Range>)
    requires Normal(rs) && r.start < r.end && (rs != [] ==> r.end < rs[0].start)
    ensures Normal([r] + rs)
  {
    forall i, j | 0 <= i < j < |[r] + rs|
      ensures ([r] + rs)[i].end < ([r] + rs)[j].start
    {
      if i == 0 && j > 1 {
        assert rs[0].end < rs[j - 1].start;
      }
    }
  }

  lemma NormalTail(rs: seq<Range>)
    requires Normal(rs) && rs != []
    ensures Normal(rs[1..])
    ensures rs[0].start < rs[0].end && (|rs| > 1 ==> rs[0].end < rs[1].start)
    ensures forall x :: Covers(rs[1..], x) ==> rs[0].end < x
  {
  }

  /** Puts `s` into the first range that can take it, or between ranges, or at the end. */
  function Place(rs: seq<Range>, s: nat): seq<Range>
    decreases |rs|
  {
    if rs == [] then [Range(s, s + 1)]
    else if rs[0].start <= s < rs[0].end then rs
    else if rs[0].start == s + 1 then [Range(s, rs[0].end)] + rs[1..]
    else if rs[0].end == s then
      if |rs| > 1 && s + 1 == rs[1].start then [Range(rs[0].start, rs[1].end)] + rs[2..]
      else [Range(rs[0].start, s + 1)] + rs[1..]
    else if rs[0].start > s + 1 then [Range(s, s + 1)] + rs
    else [rs[0]] + Place(rs[1..], s)
  }

  /** The new sequence starts a range after all the others and the list is full. */
  predicate Overflows(rs: seq<Range>, s: nat) {
    |rs| >= MAX_RANGES && s > rs[|rs| - 1].end
  }

  /** `add_pending_ack` as a function of the range list. */
  function AddAck(rs: seq<Range>, s: nat): seq<Range> {
    if Overflows(rs, s) then Place(rs, s)[1..] else Place(rs, s)
  }

  lemma NormalOne(s: nat)
    ensures Normal([Range(s, s + 1)])
  {
  }

  lemma {:induction false} PlaceShape(rs: seq<Range>, s: nat)
    requires Normal(rs)
    ensures Normal(Place(rs, s))
    ensures Place(rs, s)[0].start == if rs == [] || s < rs[0].start then s else rs[0].start
    decreases |rs|
  {
    hide Normal, Covers;
    if rs == [] {
      assert Normal(Place(rs, s)) by { NormalOne(s); }
    } else {
      NormalTail(rs);
      var rest := rs[1..];
      if rs[0].start <= s < rs[0].end {
      } else if rs[0].start == s + 1 {
        NormalCons(Range(s, rs[0].end), rest);
      } else if rs[0].end == s {
        if |rs| > 1 && s + 1 == rs[1].start {
          NormalTail(rest);
          assert rest[1..] == rs[2..];
          NormalCons(Range(rs[0].start, rs[1].end), rs[2..]);
        } else {
          NormalCons(Range(rs[0].start, s + 1), rest);
        }
      } else if rs[0].start > s + 1 {
        NormalCons(Range(s, s + 1), rs);
      } else {
        PlaceShape(rest, s);
        NormalCons(rs[0], Place(rest, s));
      }
    }
  }

  lemma {:induction false} PlaceCovers(rs: seq<Range>, s: nat, x: nat)
    requires Normal(rs)
    ensures Covers(Place(rs, s), x) <==> Covers(rs, x) || x == s
    decreases |rs|
  {
    if rs == [] {
      CoversCons(Range(s, s + 1), [], x);
      assert [Range(s, s + 1)] + [] == [Range(s, s + 1)];
    } else {
      var rest := rs[1..];
      assert rs == [rs[0]] + rest;
      CoversCons(rs[0], rest, x);
      if rs[0].start <= s < rs[0].end {
      } else if rs[0].start == s + 1 {
        CoversCons(Range(s, rs[0].end), rest, x);
      } else if rs[0].end == s {
        if |rs| > 1 && s + 1 == rs[1].start {
          assert rest == [rest[0]] + rs[2..];
          CoversCons(rs[1], rs[2..], x);
          CoversCons(Range(rs[0].start, rs[1].end), rs[2..], x);
        } else {
          CoversCons(Range(rs[0].start, s + 1), rest, x);
        }
      } else if rs[0].start > s + 1 {
        CoversCons(Range(s, s + 1), rs, x);
      } else {
        PlaceCovers(rest, s, x);
        CoversCons(rs[0], Place(rest, s), x);
      }
    }
  }

  /**
   `AddAck` adds exactly `s` to the set, except that appending to a full list also
   forgets the lowest range.
   */
  lemma AddAckRefinesSet(rs: seq<Range>, s: nat)
    requires Normal(rs)
    ensures Normal(AddAck(rs, s)) && AddAck(rs, s) != []
    ensures forall x :: Covers(AddAck(rs, s), x) <==>
      (Covers(rs, x) || x == s) && !(Overflows(rs, s) && InRange(rs[0], x))
  {
    PlaceShape(rs, s);
    var placed := Place(rs, s);
    var added := AddAck(rs, s);
    if Overflows(rs, s) {
      NormalTail(placed);
      assert placed == [placed[0]] + added;
    }
    forall x
      ensures Covers(added, x) <==> (Covers(rs, x) || x == s) && !(Overflows(rs, s) && InRange(rs[0], x))
    {
      PlaceCovers(rs, s, x);
      if Overflows(rs, s) {
        CoversCons(placed[0], added, x);
        assert placed[0] == rs[0];
      }
    }
  }

  /** `acked_largest` as a function of the range list. */
  function AckedLargest(rs: seq<Range>, largest: nat): seq<Range>
    decreases |rs|
  {
    if rs == [] || largest < rs[0].start then rs
    else if rs[0].end <= largest then AckedLargest(rs[1..], largest)
    else if largest + 1 == rs[0].end then rs[1..]
    else [Range(largest + 1, rs[0].end)] + rs[1..]
  }

  /** `AckedLargest` removes exactly the sequences up to and including `largest`. */
  lemma {:induction false} AckedLargestRefinesSet(rs: seq<Range>, largest: nat)
    requires Normal(rs)
    ensures Normal(AckedLargest(rs, largest))
    ensures forall x: nat :: Covers(AckedLargest(rs, largest), x) <==> Covers(rs, x) && x > largest
    decreases |rs|
  {
    if rs != [] {
      NormalTail(rs);
      var rest := rs[1..];
      assert rs == [rs[0]] + rest;
      if rs[0].start <= largest && rs[0].end <= largest {
        AckedLargestRefinesSet(rest, largest);
      } else if rs[0].start <= largest < rs[0].end - 1 {
        NormalCons(Range(largest + 1, rs[0].end), rest);
      }
      forall x: nat
        ensures Covers(AckedLargest(rs, largest), x) <==> Covers(rs, x) && x > largest
      {
        CoversCons(rs[0], rest, x);
        if rs[0].start <= largest < rs[0].end - 1 {
          CoversCons(Range(largest + 1, rs[0].end), rest, x);
        }
      }
    }
  }

  lemma HeadCovers(rs: seq<Range>)
    requires Normal(rs) && rs != []
    ensures Covers(rs, rs[0].start) && Covers(rs, rs[0].end - 1) && !Covers(rs, rs[0].end)
    ensures forall x :: Covers(rs, x) ==> rs[0].start <= x
    ensures forall x :: rs[0].start <= x < rs[0].end ==> Covers(rs, x)
  {
  }

  /** The normal form is canonical: two normal lists for the same set are the same list. */
  lemma {:induction false} Canonical(a: seq<Range>, b: seq<Range>)
    requires Normal(a) && Normal(b)
    requires forall x :: Covers(a, x) <==> Covers(b, x)
    ensures a == b
  {
    if a == [] {
      if b != [] {
        HeadCovers(b);
      }
    } else {
      HeadCovers(a);
      assert Covers(b, a[0].start);
      HeadCovers(b);
      assert a[0].start == b[0].start;
      assert a[0].end == b[0].end;
      NormalTail(a);
      NormalTail(b);
      forall x
        ensures Covers(a[1..], x) <==> Covers(b[1..], x)
      {
        CoversCons(a[0], a[1..], x);
        CoversCons(b[0], b[1..], x);
        assert a == [a[0]] + a[1..] && b == [b[0]] + b[1..];
      }
      Canonical(a[1..], b[1..]);
      assert a == [a[0]] + a[1..] && b == [b[0]] + b[1..];
    }
  }

  /** `s` is inside a range of `rs` or directly next to one. */
  predicate Touches(rs: seq<Range>, s: nat) {
    exists i :: 0 <= i < |rs| && rs[i].start <= s + 1 && s <= rs[i].end
  }

  lemma TouchesCons(rs: seq<Range>, s: nat)
    requires rs != []
    ensures Touches(rs, s) <==> (rs[0].start <= s + 1 && s <= rs[0].end) || Touches(rs[1..], s)
  {
    var rest := rs[1..];
    if Touches(rest, s) {
      var i :| 0 <= i < |rest| && rest[i].start <= s + 1 && s <= rest[i].end;
      assert rs[i + 1] == rest[i];
    }
    if Touches(rs, s) {
      var i :| 0 <= i < |rs| && rs[i].start <= s + 1 && s <= rs[i].end;
      assert i == 0 || rs[i] == rest[i - 1];
    }
  }

  /** `s` fills the gap of one between two ranges. */
  predicate Bridges(rs: seq<Range>, s: nat) {
    exists i :: 0 <= i < |rs| - 1 && rs[i].end == s && rs[i + 1].start == s + 1
  }

  lemma BridgesCons(rs: seq<Range>, s: nat)
    requires rs != []
    ensures Bridges(rs, s) <==> (|rs| > 1 && rs[0].end == s && rs[1].start == s + 1) || Bridges(rs[1..], s)
  {
    var rest := rs[1..];
    if Bridges(rest, s) {
      var i :| 0 <= i < |rest| - 1 && rest[i].end == s && rest[i + 1].start == s + 1;
      assert rs[i + 1] == rest[i] && rs[i + 2] == rest[i + 1];
    }
    if Bridges(rs, s) {
      var i :| 0 <= i < |rs| - 1 && rs[i].end == s && rs[i + 1].start == s + 1;
      assert i == 0 || (rs[i] == rest[i - 1] && rs[i + 1] == rest[i]);
    }
  }

  /** Both hold only for sequences that are not below the first range. */
  lemma NearAbove(rs: seq<Range>, s: nat)
    requires Normal(rs)
    ensures Bridges(rs, s) ==> Touches(rs, s)
    ensures rs != [] && s < rs[0].end ==> !Bridges(rs, s)
    ensures |rs| > 1 && s <= rs[0].end ==> (Touches(rs[1..], s) <==> s + 1 == rs[1].start)
  {
  }

  /** The length changes by one where nothing is touched, and the other way where two ranges become one. */
  lemma {:induction false} PlaceLength(rs: seq<Range>, s: nat)
    requires Normal(rs)
    ensures |Place(rs, s)| == |rs| + if !Touches(rs, s) then 1 else if Bridges(rs, s) then -1 else 0
    decreases |rs|
  {
    NearAbove(rs, s);
    hide Touches, Bridges;
    if rs == [] {
      TouchesNothing(s);
    } else {
      NormalTail(rs);
      TouchesCons(rs, s);
      BridgesCons(rs, s);
      PlaceLength(rs[1..], s);
      NearAbove(rs[1..], s);
    }
  }

  lemma TouchesNothing(s: nat)
    ensures !Touches([], s)
  {
  }

  /**
   The limit of 64 ranges is not kept by every call. The list has at most 64 ranges
   afterwards exactly if it had fewer before, or had 64 and the new sequence touches a range
   or lies beyond all of them, or had 65 and two of them become one.
   */
  lemma LimitKeptIff(rs: seq<Range>, s: nat)
    requires Normal(rs)
    ensures |AddAck(rs, s)| <= MAX_RANGES <==>
      || |rs| < MAX_RANGES
      || (|rs| == MAX_RANGES && (Touches(rs, s) || s > rs[|rs| - 1].end))
      || (|rs| == MAX_RANGES + 1 && Bridges(rs, s))
  {
    PlaceLength(rs, s);
    NearAbove(rs, s);
    if rs != [] && s > rs[|rs| - 1].end {
      BeyondTouchesNone(rs, s);
    }
  }

  lemma BeyondTouchesNone(rs: seq<Range>, s: nat)
    requires Normal(rs) && rs != [] && s > rs[|rs| - 1].end
    ensures !Touches(rs, s)
  {
  }

  /** The list after acknowledging all of `history`, starting from nothing. */
  function AddAll(history: seq<nat>): seq<Range> {
    if history == [] then [] else AddAck(AddAll(history[..|history| - 1]), history[|history| - 1])
  }

  /** The sequences 2n, 2n - 2, ..., 2. */
  function DescendingEvens(n: nat): (h: seq<nat>)
    ensures |h| == n
  {
    seq(n, i requires 0 <= i < n => 2 * (n - i))
  }

  /** Packets that arrive in descending order with gaps make the list as long as one likes. */
  lemma {:induction false} NoGlobalLimit(n: nat, k: nat)
    requires k <= n
    ensures AddAll(DescendingEvens(n)[..k]) == Singles(2 * (n - k + 1), k)
  {
    if k > 0 {
      var h := DescendingEvens(n)[..k];
      assert h[..k - 1] == DescendingEvens(n)[..k - 1];
      NoGlobalLimit(n, k - 1);
      assert h[k - 1] == 2 * (n - k + 1);
      PlaceInFront(2 * (n - k + 1), k - 1);
    }
  }

  /** `k` ranges of one sequence each, at `first` and every second sequence after it. */
  function Singles(first: nat, k: nat): (rs: seq<Range>)
    ensures |rs| == k
  {
    seq(k, i requires 0 <= i < k => Range(first + 2 * i, first + 2 * i + 1))
  }

  lemma FrontPlace(rs: seq<Range>, s: nat)
    requires rs == [] || s + 1 < rs[0].start < rs[0].end
    ensures Place(rs, s) == [Range(s, s + 1)] + rs
  {
  }

  lemma PlaceInFront(s: nat, k: nat)
    ensures AddAck(Singles(s + 2, k), s) == Singles(s, k + 1)
  {
    hide Place;
    var rs := Singles(s + 2, k);
    FrontPlace(rs, s);
    assert k > 0 ==> rs[k - 1].end > s;
    assert [Range(s, s + 1)] + rs == Singles(s, k + 1);
  }
}
