/**
 Packet-loss statistics of a connection: a ring of 20 slots of 300 ms each
 (renet/src/connection_stats.rs). Byte rates are not modelled.
 */
module Stats {
  import opened Common

  const NANOS_PER_MILLI: nat := 1_000_000
  const RESOLUTION_MILLIS: nat := 300
  const WINDOW: Time := 6_000_000_000
  const SIZE: nat := 20

  /** The slot of the ring that an instant falls into. */
  function Index(t: Time): (i: nat)
    ensures i < SIZE
  {
    t / NANOS_PER_MILLI / RESOLUTION_MILLIS % SIZE
  }

  datatype StatsState = StatsState(sent: seq<nat>, acked: seq<nat>, current: nat)

  ghost predicate WfStats(s: StatsState) {
    |s.sent| == SIZE && |s.acked| == SIZE && s.current < SIZE
  }

  function NewStats(): StatsState {
    StatsState(seq(SIZE, _ => 0), seq(SIZE, _ => 0), 0)
  }

  /** `update`: entering another slot clears it. */
  function UpdateStats(s: StatsState, now: Time): StatsState
    requires WfStats(s)
  {
    var i := Index(now);
    if s.current == i then s else StatsState(s.sent[i := 0], s.acked[i := 0], i)
  }

  /** `sent_packets`. */
  function CountSent(s: StatsState, n: nat): StatsState
    requires WfStats(s)
  {
    s.(sent := s.sent[s.current := s.sent[s.current] + n])
  }

  /** `acked_packet`. */
  function CountAcked(s: StatsState, sentAt: Time, now: Time): StatsState
    requires WfStats(s)
  {
    var i := Index(sentAt);
    if now - sentAt > WINDOW then s else s.(acked := s.acked[i := s.acked[i] + 1])
  }

  function Sum(s: seq<nat>): nat {
    if s == [] then 0 else Sum(s[..|s| - 1]) + s[|s| - 1]
  }

  /** The sum over all slots but the current one and the two before it. */
  function SettledSum(s: seq<nat>, current: nat): int
    requires |s| == SIZE && current < SIZE
  {
    Sum(s) - s[current] - s[(current + SIZE - 1) % SIZE] - s[(current + SIZE - 2) % SIZE]
  }

  /** `packet_loss`. */
  function PacketLoss(s: StatsState): real
    requires WfStats(s)
  {
    var sent := SettledSum(s.sent, s.current);
    var acked := SettledSum(s.acked, s.current);
    if sent == 0 then 0.0 else (sent - acked) as real / sent as real
  }

  lemma {:induction false} SumClear(s: seq<nat>, i: nat)
    requires i < |s|
    ensures Sum(s[i := 0]) == Sum(s) - s[i]
  {
    var n := |s| - 1;
    if i < n {
      SumClear(s[..n], i);
      assert s[i := 0][..n] == s[..n][i := 0];
    } else {
      assert s[i := 0][..n] == s[..n];
    }
  }

  lemma {:induction false} SumMonotone(a: seq<nat>, b: seq<nat>)
    requires |a| == |b| && forall i :: 0 <= i < |a| ==> a[i] <= b[i]
    ensures Sum(a) <= Sum(b)
  {
    if a != [] {
      SumMonotone(a[..|a| - 1], b[..|b| - 1]);
    }
  }

  /** The slots that `packet_loss` looks at. */
  function Settled(s: seq<nat>, current: nat): seq<nat>
    requires |s| == SIZE && current < SIZE
  {
    s[current := 0][(current + SIZE - 1) % SIZE := 0][(current + SIZE - 2) % SIZE := 0]
  }

  lemma SettledSumIsSum(s: seq<nat>, current: nat)
    requires |s| == SIZE && current < SIZE
    ensures SettledSum(s, current) == Sum(Settled(s, current))
  {
    var i, j := (current + SIZE - 1) % SIZE, (current + SIZE - 2) % SIZE;
    SumClear(s, current);
    SumClear(s[current := 0], i);
    SumClear(s[current := 0][i := 0], j);
  }

  /** If no slot has more acknowledgements than packets, the loss is a fraction and no sum underflows. */
  lemma LossInUnitInterval(s: StatsState)
    requires WfStats(s) && forall i :: 0 <= i < SIZE ==> s.acked[i] <= s.sent[i]
    ensures 0 <= SettledSum(s.acked, s.current) <= SettledSum(s.sent, s.current)
    ensures 0.0 <= PacketLoss(s) <= 1.0
  {
    SettledSumIsSum(s.sent, s.current);
    SettledSumIsSum(s.acked, s.current);
    SumMonotone(Settled(s.acked, s.current), Settled(s.sent, s.current));
    var sent, acked := SettledSum(s.sent, s.current), SettledSum(s.acked, s.current);
    if sent > 0 {
      Fraction((sent - acked) as real, sent as real);
    }
  }

  /**
   The loss is the share of the settled packets that were not acknowledged: nothing is
   lost exactly if every settled slot is fully acknowledged, and everything exactly if
   none has an acknowledgement.
   */
  lemma LossIsUnackedShare(s: StatsState)
    requires WfStats(s) && (forall i :: 0 <= i < SIZE ==> s.acked[i] <= s.sent[i]) && Sum(Settled(s.sent, s.current)) > 0
    ensures PacketLoss(s) == 0.0 <==> Settled(s.acked, s.current) == Settled(s.sent, s.current)
    ensures PacketLoss(s) == 1.0 <==> forall i :: 0 <= i < SIZE ==> Settled(s.acked, s.current)[i] == 0
    ensures PacketLoss(s) * Sum(Settled(s.sent, s.current)) as real ==
            (Sum(Settled(s.sent, s.current)) - Sum(Settled(s.acked, s.current))) as real
  {
    hide Sum, Settled, PacketLoss;
    SettledBelow(s);
    LossIsQuotient(s);
    var a, b := Settled(s.acked, s.current), Settled(s.sent, s.current);
    SumEqual(a, b);
    SumZero(a);
    Share((Sum(b) - Sum(a)) as real, Sum(b) as real);
  }

  lemma SettledBelow(s: StatsState)
    requires WfStats(s) && forall i :: 0 <= i < SIZE ==> s.acked[i] <= s.sent[i]
    ensures var a, b := Settled(s.acked, s.current), Settled(s.sent, s.current);
      |a| == |b| == SIZE && forall i :: 0 <= i < SIZE ==> a[i] <= b[i]
  {
  }

  lemma LossIsQuotient(s: StatsState)
    requires WfStats(s) && Sum(Settled(s.sent, s.current)) > 0
    ensures PacketLoss(s) == (Sum(Settled(s.sent, s.current)) - Sum(Settled(s.acked, s.current))) as real /
                             Sum(Settled(s.sent, s.current)) as real
  {
    hide Sum, Settled, SettledSum;
    SettledSumIsSum(s.sent, s.current);
    SettledSumIsSum(s.acked, s.current);
  }

  lemma Share(x: real, y: real)
    requires y > 0.0
    ensures x / y * y == x
    ensures x / y == 0.0 <==> x == 0.0
    ensures x / y == 1.0 <==> x == y
  {
  }

  lemma {:induction false} SumEqual(a: seq<nat>, b: seq<nat>)
    requires |a| == |b| && forall i :: 0 <= i < |a| ==> a[i] <= b[i]
    ensures Sum(a) <= Sum(b) && (Sum(a) == Sum(b) <==> a == b)
  {
    if a != [] {
      var n := |a| - 1;
      SumEqual(a[..n], b[..n]);
      assert a == a[..n] + [a[n]] && b == b[..n] + [b[n]];
    }
  }

  lemma {:induction false} SumZero(a: seq<nat>)
    ensures Sum(a) == 0 <==> forall i :: 0 <= i < |a| ==> a[i] == 0
  {
    if a != [] {
      SumZero(a[..|a| - 1]);
    }
  }

  lemma Fraction(a: real, b: real)
    requires 0.0 <= a <= b && 0.0 < b
    ensures 0.0 <= a / b <= 1.0
  {
    var q := a / b;
    assert q * b == a;
    assert (1.0 - q) * b == b - a;
    Scale(1.0 - q, b);
    Scale(q, b);
  }

  /** A number is non-negative if its product with a positive one is. */
  lemma Scale(q: real, b: real)
    requires 0.0 < b && 0.0 <= q * b
    ensures 0.0 <= q
  {
  }
}
