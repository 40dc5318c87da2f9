/**
 The replay window of netcode connections (renetcode/src/replay_protection.rs, "Replay
 Protection" section of the Netcode 1.02 standard), compared with the full history of
 accepted sequences. Sequences are 64-bit words; their addition wraps.
 */
module Replay {
  const SIZE: nat := 256
  const WORD: nat := 0x1_0000_0000_0000_0000
  const EMPTY: nat := WORD - 1

  datatype Window = Window(mostRecent: nat, ring: seq<nat>)

  function New(): Window {
    Window(0, seq(SIZE, _ => EMPTY))
  }

  ghost predicate Wf(w: Window) {
    |w.ring| == SIZE
  }

  /** `already_received`. */
  predicate Seen(w: Window, s: nat)
    requires Wf(w)
  {
    (s + SIZE) % WORD <= w.mostRecent || (w.ring[s % SIZE] != EMPTY && w.ring[s % SIZE] >= s)
  }

  /** `advance_sequence`. */
  function Advance(w: Window, s: nat): Window
    requires Wf(w)
  {
    Window(if s > w.mostRecent then s else w.mostRecent, w.ring[s % SIZE := s])
  }

  // ---------------------------------------------------------------- comparison with the history

  /** The intended answer: too far behind the newest sequence, or accepted before. */
  ghost predicate Expected(w: Window, accepted: set<nat>, s: nat) {
    s + SIZE <= w.mostRecent || s in accepted
  }

  /** Where the wrapping addition does not matter. */
  ghost predicate Exact(w: Window, accepted: set<nat>, s: nat) {
    s < WORD - SIZE || s in accepted || w.mostRecent < s - (WORD - SIZE)
  }

  /** `a` was accepted into slot `i`. */
  ghost predicate InSlot(a: nat, i: nat) {
    a % SIZE == i
  }

  /**
   The window remembers the newest accepted sequence, overall and per slot. The sequence
   that is stored like an empty slot is the largest word.
   */
  ghost predicate Inv(w: Window, accepted: set<nat>) {
    && Wf(w) && w.mostRecent < WORD
    && (forall a :: a in accepted ==> a <= w.mostRecent && a <= w.ring[a % SIZE])
    && (w.mostRecent in accepted || (w.mostRecent == 0 && accepted == {}))
    && (forall i :: 0 <= i < SIZE && w.ring[i] != EMPTY ==> w.ring[i] in accepted && InSlot(w.ring[i], i))
    && (forall i, a :: 0 <= i < SIZE && w.ring[i] == EMPTY && a in accepted && InSlot(a, i) ==> EMPTY in accepted)
  }

  lemma NewInv()
    ensures Inv(New(), {})
  {
  }

  lemma SameSlot(a: nat, b: nat)
    requires a % SIZE == b % SIZE && a <= b < a + SIZE
    ensures a == b
  {
  }

  /** The answer is the intended one for exactly these sequences. */
  lemma AnswerIsExactIff(w: Window, accepted: set<nat>, s: nat)
    requires Inv(w, accepted) && s < WORD
    ensures Seen(w, s) == Expected(w, accepted, s) <==> Exact(w, accepted, s)
  {
    var v := w.ring[s % SIZE];
    if s < WORD - SIZE {
      assert (s + SIZE) % WORD == s + SIZE;
      if s + SIZE > w.mostRecent {
        if v != EMPTY && v >= s {
          SameSlot(s, v);
        } else if s in accepted {
          assert InSlot(s, s % SIZE);
        }
      }
    } else {
      assert (s + SIZE) % WORD == s - (WORD - SIZE);
      LargeSlot(s);
      if w.mostRecent < s - (WORD - SIZE) {
        LargeSlotEmpty(w, accepted, s);
      }
    }
  }

  /** While the newest sequence is below the wrapped one, nothing is stored in the slot of `s`. */
  lemma LargeSlotEmpty(w: Window, accepted: set<nat>, s: nat)
    requires Inv(w, accepted) && WORD - SIZE <= s < WORD && w.mostRecent < s - (WORD - SIZE)
    ensures w.ring[s % SIZE] == EMPTY && s !in accepted
  {
    LargeSlot(s);
    forall a | a in accepted
      ensures !InSlot(a, s % SIZE)
    {
      assert a < SIZE;
    }
  }

  lemma LargeSlot(s: nat)
    requires WORD - SIZE <= s < WORD
    ensures s % SIZE == s - (WORD - SIZE)
  {
  }

  /** Accepting a sequence that the window did not refuse. */
  lemma AdvanceInv(w: Window, accepted: set<nat>, s: nat)
    requires Inv(w, accepted) && s < WORD && !Seen(w, s)
    ensures Inv(Advance(w, s), accepted + {s})
  {
    var w' := Advance(w, s);
    forall a | a in accepted
      ensures a <= w'.ring[a % SIZE]
    {
      if a % SIZE == s % SIZE && s < a {
        NewerInSlot(w, accepted, s, a);
      }
    }
    forall i, a | 0 <= i < SIZE && w'.ring[i] == EMPTY && a in accepted + {s} && InSlot(a, i)
      ensures EMPTY in accepted + {s}
    {
    }
  }

  /** A window that would accept `s` has accepted nothing newer in the same slot. */
  lemma NewerInSlot(w: Window, accepted: set<nat>, s: nat, a: nat)
    requires Inv(w, accepted) && s < WORD && a in accepted && a % SIZE == s % SIZE && s < a
    ensures Seen(w, s)
  {
    var v := w.ring[s % SIZE];
    assert a <= v;
    if v == EMPTY {
      assert InSlot(a, s % SIZE);
      assert EMPTY in accepted;
    }
    if s < WORD - SIZE {
      assert (s + SIZE) % WORD == s + SIZE;
      if s + SIZE > a {
        SameSlot(s, a);
      }
    } else {
      SameSlot(s, a);
    }
  }

  // ---------------------------------------------------------------- runs

  /** The window and the accepted sequences after offers that were each checked first. */
  datatype Run = Run(window: Window, accepted: set<nat>)

  ghost function Offer(r: Run, s: nat): Run
    requires Wf(r.window)
  {
    if Seen(r.window, s) then r else Run(Advance(r.window, s), r.accepted + {s})
  }

  ghost function After(offers: seq<nat>): (r: Run)
    ensures Wf(r.window)
  {
    if offers == [] then Run(New(), {}) else Offer(After(offers[..|offers| - 1]), offers[|offers| - 1])
  }

  ghost predicate AllWords(offers: seq<nat>) {
    forall i :: 0 <= i < |offers| ==> offers[i] < WORD
  }

  lemma {:induction false} AfterInv(offers: seq<nat>)
    requires AllWords(offers)
    ensures Inv(After(offers).window, After(offers).accepted)
  {
    hide Inv, Seen;
    if offers == [] {
      NewInv();
    } else {
      var n := |offers| - 1;
      AfterInv(offers[..n]);
      var r := After(offers[..n]);
      if !Seen(r.window, offers[n]) {
        AdvanceInv(r.window, r.accepted, offers[n]);
      }
    }
  }

  /** After every run of offers the window agrees with the history, for exactly the sequences of `Exact`. */
  lemma WindowIsExact(offers: seq<nat>, s: nat)
    requires AllWords(offers) && s < WORD
    ensures var r := After(offers);
      Seen(r.window, s) == Expected(r.window, r.accepted, s) <==> Exact(r.window, r.accepted, s)
  {
    hide Inv, Seen, Expected, Exact;
    AfterInv(offers);
    AnswerIsExactIff(After(offers).window, After(offers).accepted, s);
  }

  /** No sequence is accepted twice, whatever its size. */
  lemma NeverTwice(offers: seq<nat>, s: nat)
    requires AllWords(offers) && s in After(offers).accepted
    ensures Seen(After(offers).window, s)
  {
    var r := After(offers);
    AfterInv(offers);
    assert s < WORD by {
      assert s <= r.window.mostRecent;
    }
    AnswerIsExactIff(r.window, r.accepted, s);
  }

  /** A new sequence inside the window is not refused. */
  lemma FreshIsNotRefused(offers: seq<nat>, s: nat)
    requires AllWords(offers) && s < WORD - SIZE
    requires s !in After(offers).accepted && After(offers).window.mostRecent < s + SIZE
    ensures !Seen(After(offers).window, s)
  {
    WindowIsExact(offers, s);
  }

  /** Near the largest word the addition wraps, and a new sequence is refused. */
  lemma WrapRefusesFresh()
    ensures var r := After([0]);
      var s := WORD - SIZE;
      Seen(r.window, s) && s !in r.accepted && r.window.mostRecent < s
  {
    assert After([]) == Run(New(), {});
    assert [0][..0] == [];
  }

  // ---------------------------------------------------------------- the object

  class ReplayProtection {
    var mostRecentSequence: nat
    const receivedPacket: array<nat>

    ghost predicate Valid()
      reads this
    {
      receivedPacket.Length == SIZE
    }

    ghost function Model(): (w: Window)
      requires Valid()
      reads this, receivedPacket
      ensures Wf(w)
    {
      Window(mostRecentSequence, receivedPacket[..])
    }

    constructor ()
      ensures Valid() && Model() == New() && fresh(receivedPacket)
    {
      mostRecentSequence := 0;
      receivedPacket := new nat[SIZE](_ => EMPTY);
    }

    method AlreadyReceived(sequence: nat) returns (r: bool)
      requires Valid() && sequence < WORD
      ensures r == Seen(Model(), sequence)
      ensures forall accepted :: Inv(Model(), accepted) && sequence < WORD - SIZE ==>
        (r <==> sequence + SIZE <= mostRecentSequence || sequence in accepted)
    {
      forall accepted | Inv(Model(), accepted) && sequence < WORD - SIZE
        ensures Seen(Model(), sequence) == Expected(Model(), accepted, sequence)
      {
        AnswerIsExactIff(Model(), accepted, sequence);
      }
      if (sequence + SIZE) % WORD <= mostRecentSequence {
        return true;
      }
      var index := sequence % SIZE;
      if receivedPacket[index] == EMPTY {
        return false;
      }
      if receivedPacket[index] >= sequence {
        return true;
      }
      return false;
    }

    method AdvanceSequence(sequence: nat)
      requires Valid() && sequence < WORD
      modifies this`mostRecentSequence, receivedPacket
      ensures Model() == Advance(old(Model()), sequence)
      ensures forall accepted :: old(Inv(Model(), accepted) && !Seen(Model(), sequence)) ==>
        Inv(Model(), accepted + {sequence})
    {
      forall accepted | Inv(Model(), accepted) && !Seen(Model(), sequence)
        ensures Inv(Advance(Model(), sequence), accepted + {sequence})
      {
        AdvanceInv(Model(), accepted, sequence);
      }
      if sequence > mostRecentSequence {
        mostRecentSequence := sequence;
      }
      var index := sequence % SIZE;
      receivedPacket[index] := sequence;
    }
  }
}
