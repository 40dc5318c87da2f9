/**
 The sequences of the packets a netcode client seals over a run (renetcode/src/client.rs):
 they increase. A client that is told to leave more than once repeats its last packet.
 */
module ClientSequences {
  import opened Common
  import opened NetcodePacket
  import opened NetcodeClient
  import R = Replay

  ghost function NewlySealed(c: Client, e: Event): seq<Datagram>
    requires Wf(c)
  {
    var d := Step(c, e).sent;
    if d.Some? && d.value.Sealed? then [d.value] else []
  }

  /** What the client has sealed, in order. */
  ghost function SealedIn(now: Time, t: ConnectToken, events: seq<Event>): seq<Datagram>
    requires WfToken(t)
  {
    if events == [] then []
    else
      var n := |events| - 1;
      var h := After(now, t, events[..n]);
      SealedIn(now, t, events[..n]) + if h.down then [] else NewlySealed(h.client, events[n])
  }

  /** The packet with which the client leaves, in its current state. */
  function Parting(c: Client): Datagram {
    Sealed(c.token.clientToServerKey, c.token.protocolId, c.sequence, Disconnect)
  }

  /** Sealed before with a smaller sequence, or the packet with which the client has left. */
  ghost predicate Earlier(c: Client, d: Datagram) {
    && Authentic(d, c.token.protocolId, c.token.clientToServerKey)
    && if d.body.Disconnect? then c.state.Disconnected? && d == Parting(c) else d.sequence < c.sequence
  }

  ghost predicate AllEarlier(c: Client, ds: seq<Datagram>) {
    forall i :: 0 <= i < |ds| ==> Earlier(c, ds[i])
  }

  /** The sequence is larger, or the packet is the same farewell again. */
  ghost predicate Precedes(d: Datagram, d': Datagram)
    requires d.Sealed? && d'.Sealed?
  {
    if d.body.Disconnect? then d' == d else d.sequence < d'.sequence
  }

  ghost predicate Increasing(ds: seq<Datagram>) {
    && (forall i :: 0 <= i < |ds| ==> ds[i].Sealed?)
    && (forall i, j :: 0 <= i < j < |ds| ==> Precedes(ds[i], ds[j]))
  }

  lemma StepKeepsEarlier(c: Client, e: Event, d: Datagram)
    requires Wf(c) && Earlier(c, d)
    ensures Earlier(Step(c, e).client, d)
  {
    hide R.Seen;
  }

  /** What a step seals is earlier than all that follows, and not earlier than what was sealed before. */
  lemma StepSeals(c: Client, e: Event)
    requires Wf(c) && NewlySealed(c, e) != []
    ensures var d := NewlySealed(c, e)[0];
      Earlier(Step(c, e).client, d) && d.sequence == c.sequence && (!d.body.Disconnect? ==> !c.state.Disconnected?)
  {
    hide R.Seen;
  }

  lemma {:induction false} RunIncreases(now: Time, t: ConnectToken, events: seq<Event>)
    requires WfToken(t)
    ensures AllEarlier(After(now, t, events).client, SealedIn(now, t, events)) && Increasing(SealedIn(now, t, events))
  {
    hide Step, Earlier;
    if events != [] {
      var n := |events| - 1;
      RunIncreases(now, t, events[..n]);
      var h, ds := After(now, t, events[..n]), SealedIn(now, t, events[..n]);
      if !h.down {
        NextIncreases(h.client, ds, events[n]);
      }
    }
  }

  lemma NextIncreases(c: Client, ds: seq<Datagram>, e: Event)
    requires Wf(c) && AllEarlier(c, ds) && Increasing(ds)
    ensures AllEarlier(Step(c, e).client, ds + NewlySealed(c, e)) && Increasing(ds + NewlySealed(c, e))
  {
    forall i | 0 <= i < |ds|
      ensures Earlier(Step(c, e).client, ds[i])
    {
      StepKeepsEarlier(c, e, ds[i]);
    }
    hide Step;
    if NewlySealed(c, e) != [] {
      StepSeals(c, e);
      var d := NewlySealed(c, e)[0];
      forall i | 0 <= i < |ds|
        ensures Precedes(ds[i], d)
      {
        assert Earlier(c, ds[i]) && Earlier(Step(c, e).client, ds[i]);
      }
    }
  }

  /**
   In every run, everything the client seals is sealed with its key, and the sequences
   increase. Two packets share one exactly if both are the packet with which it leaves.
   */
  lemma SequencesIncrease(now: Time, t: ConnectToken, events: seq<Event>, i: nat, j: nat)
    requires WfToken(t) && i < j < |SealedIn(now, t, events)|
    ensures var ds := SealedIn(now, t, events);
      && Authentic(ds[i], t.protocolId, t.clientToServerKey) && Authentic(ds[j], t.protocolId, t.clientToServerKey)
      && ds[i].sequence <= ds[j].sequence
      && (ds[i].sequence == ds[j].sequence <==> ds[i].body.Disconnect?)
      && (ds[i].body.Disconnect? ==> ds[i] == ds[j])
  {
    hide Step, After;
    RunIncreases(now, t, events);
    AttemptsFollowToken(now, t, events);
    var ds := SealedIn(now, t, events);
    assert Earlier(After(now, t, events).client, ds[i]) && Earlier(After(now, t, events).client, ds[j]);
    assert Precedes(ds[i], ds[j]);
  }

  /** A client that has asked for a connection and is then told to leave twice seals the same packet twice. */
  lemma LeavingTwiceRepeats(now: Time, t: ConnectToken)
    requires WfToken(t) && t.createTimestamp < t.expireTimestamp
    ensures var d := Sealed(t.clientToServerKey, t.protocolId, 1, Disconnect);
      SealedIn(now, t, [Elapse(0), Leave, Leave]) == [d, d]
  {
    var none, asked, left := [], [Elapse(0)], [Elapse(0), Leave];
    var all := [Elapse(0), Leave, Leave];
    assert asked[..0] == none && left[..1] == asked && all[..2] == left;
    assert After(now, t, none).client == New(now, t);
    var c := After(now, t, asked).client;
    assert c.sequence == 1 && c.token == t && SealedIn(now, t, asked) == [];
    assert SealedIn(now, t, left) == [Parting(c)];
  }
}
