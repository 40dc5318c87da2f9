/** Types and counting functions shared by every module. */
module Common {

  type byte = x: int | 0 <= x < 256

  type Message = seq<byte>

  /** Instants and durations, in nanoseconds. */
  type Time = nat

  datatype Option<+T> = None | Some(value: T)

  datatype Result<+T, +E> = Ok(value: T) | Err(error: E)

  /** Sliced messages are split into chunks of this many bytes. */
  const SLICE_SIZE: nat := 1200

  /** Number of `true` entries. */
  function CountTrue(s: seq<bool>): (n: nat)
    ensures n <= |s|
  {
    if s == [] then 0 else CountTrue(s[..|s| - 1]) + if s[|s| - 1] then 1 else 0
  }

  predicate AllTrue(s: seq<bool>) {
    forall i :: 0 <= i < |s| ==> s[i]
  }

  lemma {:induction false} CountTrueNone(s: seq<bool>)
    requires forall i :: 0 <= i < |s| ==> !s[i]
    ensures CountTrue(s) == 0
  {
    if s != [] {
      CountTrueNone(s[..|s| - 1]);
    }
  }

  lemma {:induction false} CountTrueSet(s: seq<bool>, i: nat)
    requires i < |s| && !s[i]
    ensures CountTrue(s[i := true]) == CountTrue(s) + 1
  {
    var t := s[i := true];
    if i < |s| - 1 {
      CountTrueSet(s[..|s| - 1], i);
      assert t[..|s| - 1] == s[..|s| - 1][i := true];
    } else {
      assert t[..|s| - 1] == s[..|s| - 1];
    }
  }

  /** All entries are true exactly when the count reaches the length. */
  lemma {:induction false} CountTrueAll(s: seq<bool>)
    ensures CountTrue(s) == |s| <==> AllTrue(s)
  {
    if s != [] {
      var n := |s| - 1;
      CountTrueAll(s[..n]);
      if AllTrue(s[..n]) {
        assert forall i :: 0 <= i < n ==> s[i] == s[..n][i];
      } else {
        var i :| 0 <= i < n && !s[..n][i];
        assert !s[i];
      }
    }
  }

  predicate IsFirst(keys: set<nat>, id: nat) {
    id in keys && forall k :: k in keys ==> id <= k
  }

  /** The smallest key. */
  function First(keys: set<nat>): (id: nat)
    requires keys != {}
    ensures IsFirst(keys, id)
  {
    FirstExists(keys);
    var id :| IsFirst(keys, id);
    id
  }

  lemma {:induction false} FirstExists(keys: set<nat>)
    requires keys != {}
    ensures exists id :: IsFirst(keys, id)
    decreases |keys|
  {
    var k :| k in keys;
    if keys == {k} {
      assert IsFirst(keys, k);
    } else {
      FirstExists(keys - {k});
      var f :| IsFirst(keys - {k}, f);
      var least := if k < f then k else f;
      forall x | x in keys
        ensures least <= x
      {
        assert x == k || x in keys - {k};
      }
      assert IsFirst(keys, least);
    }
  }

  /** The sum of the values of a map. */
  function Total(m: map<nat, nat>): nat
    decreases |m|
  {
    if m == map[] then 0 else
      var k := First(m.Keys);
      m[k] + Total(m - {k})
  }

  /** The sum does not depend on the order in which the keys are taken. */
  lemma {:induction false} TotalRemove(m: map<nat, nat>, k: nat)
    requires k in m
    ensures Total(m) == m[k] + Total(m - {k})
    decreases |m|
  {
    var f := First(m.Keys);
    if f != k {
      TotalRemove(m - {f}, k);
      assert (m - {f}) - {k} == (m - {k}) - {f};
      assert First((m - {k}).Keys) == f by {
        assert IsFirst((m - {k}).Keys, f);
        assert IsFirst((m - {k}).Keys, First((m - {k}).Keys));
      }
    }
  }

  lemma TotalInsert(m: map<nat, nat>, k: nat, v: nat)
    requires k !in m
    ensures Total(m[k := v]) == Total(m) + v
  {
    TotalRemove(m[k := v], k);
    assert m[k := v] - {k} == m;
  }

  /** Every element of `xs` is one of `all`. */
  ghost predicate Within<T>(xs: seq<T>, all: seq<T>) {
    forall y :: y in xs ==> y in all
  }

  lemma AppendStaysWithin<T>(xs: seq<T>, x: T, all: seq<T>)
    requires Within(xs, all) && x in all
    ensures Within(xs + [x], all)
  {
    forall y | y in xs + [x]
      ensures y in all
    {
      assert y in xs || y == x;
    }
  }

  ghost predicate Distinct(s: seq<nat>) {
    forall i, j :: 0 <= i < j < |s| ==> s[i] != s[j]
  }

  ghost function Elements(s: seq<nat>): set<nat> {
    set x | x in s
  }

  /** The first `k` elements of `lost`. */
  ghost function Dropped(lost: seq<nat>, k: nat): set<nat>
    requires k <= |lost|
  {
    set i | 0 <= i < k :: lost[i]
  }

  lemma DroppedStep<V>(m: map<nat, V>, lost: seq<nat>, k: nat)
    requires k < |lost|
    ensures m - Dropped(lost, k + 1) == m - Dropped(lost, k) - {lost[k]}
  {
    assert Dropped(lost, k + 1) == Dropped(lost, k) + {lost[k]};
  }

  lemma DroppedNone(lost: seq<nat>)
    ensures Dropped(lost, 0) == {}
  {
  }

  lemma DroppedAll(lost: seq<nat>)
    ensures Dropped(lost, |lost|) == Elements(lost)
  {
  }
}
