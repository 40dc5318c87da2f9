/**
 When a netcode client changes its state (renetcode/src/client.rs): what each arrival and
 each passing of time must do, and over whole runs when a connected client times out.
 */
module ClientTimeouts {
  import opened Common
  import opened NetcodePacket
  import opened NetcodeClient
  import R = Replay

  // ---------------------------------------------------------------- arrivals

  /** `d` was sealed by the server for this client and carries `b`; a protected sequence is new. */
  ghost predicate Opens(c: Client, d: Datagram, b: Body)
    requires R.Wf(c.window)
  {
    && Authentic(d, c.token.protocolId, c.token.serverToClientKey) && d.body == b && !b.Garbled?
    && (Protected(b) ==> !R.Seen(c.window, d.sequence))
  }

  /** What an arrival must do to the state of a client. */
  ghost function StateAfter(c: Client, d: Datagram): ClientState
    requires R.Wf(c.window)
  {
    if c.state.Connected? && Opens(c, d, Disconnect) then Disconnected(DisconnectedByServer)
    else if Connecting(c) && Opens(c, d, ConnectionDenied) then Disconnected(DeniedByServer)
    else if c.state.SendingConnectionRequest? && d.Sealed? && d.body.Challenge? && Opens(c, d, d.body) then
      SendingConnectionResponse
    else if c.state.SendingConnectionResponse? && d.Sealed? && d.body.KeepAlive? && Opens(c, d, d.body) then Connected
    else c.state
  }

  /**
   Every arrival changes the state exactly as the protocol says: a new disconnect packet
   ends a connection, a denial an attempt, a challenge is taken up, a keep-alive connects;
   nothing else changes the state. Only a connected client hands out payloads.
   */
  lemma ArrivalChangesState(c: Client, d: Datagram)
    requires R.Wf(c.window)
    ensures ProcessPacket(c, d).0.state == StateAfter(c, d)
    ensures forall p :: ProcessPacket(c, d).1 == PayloadReceived(p) <==> c.state.Connected? && Opens(c, d, Payload(p))
  {
    hide R.Seen;
  }

  // ---------------------------------------------------------------- runs

  /** The client hears from the server: what connects it, and every keep-alive and payload from then on. */
  ghost predicate Hears(c: Client, e: Event)
    requires R.Wf(c.window)
  {
    && e.Arrival? && e.datagram.Sealed? && Opens(c, e.datagram, e.datagram.body)
    && ((e.datagram.body.KeepAlive? && (c.state.SendingConnectionResponse? || c.state.Connected?)) ||
        (e.datagram.body.Payload? && c.state.Connected?))
  }

  /** Event `n` of the run happens at time `at`, and the client hears from the server. */
  ghost predicate HeardAt(now: Time, t: ConnectToken, events: seq<Event>, n: nat, at: Time)
    requires WfToken(t)
  {
    && n < |events|
    && var h := After(now, t, events[..n]);
      !h.down && h.client.now == at && Hears(h.client, events[n])
  }

  /** What holds of a client that has heard from the server at some times so far. */
  ghost predicate Noted(c: Client, heard: iset<Time>) {
    && (forall at :: at in heard ==> at <= c.lastReceived)
    && (c.state.Connected? ==> c.lastReceived in heard)
    && (Connecting(c) ==> heard == iset{})
    && c.lastReceived <= c.now
  }

  ghost function Times(now: Time, t: ConnectToken, events: seq<Event>): iset<Time>
    requires WfToken(t)
  {
    iset at | SomewhereHeard(now, t, events, at)
  }

  ghost predicate SomewhereHeard(now: Time, t: ConnectToken, events: seq<Event>, at: Time)
    requires WfToken(t)
  {
    exists n :: HeardAt(now, t, events, n, at)
  }

  lemma StepNotes(c: Client, e: Event, heard: iset<Time>)
    requires Wf(c) && Noted(c, heard)
    ensures Noted(Step(c, e).client, if Hears(c, e) then heard + iset{c.now} else heard)
  {
    hide R.Seen;
  }

  lemma TimesNext(now: Time, t: ConnectToken, events: seq<Event>)
    requires WfToken(t) && events != []
    ensures var n := |events| - 1;
      var h := After(now, t, events[..n]);
      Times(now, t, events) ==
        Times(now, t, events[..n]) + if !h.down && Hears(h.client, events[n]) then iset{h.client.now} else iset{}
  {
    hide After, Hears;
    var n := |events| - 1;
    var h := After(now, t, events[..n]);
    forall at
      ensures at in Times(now, t, events) <==>
        at in Times(now, t, events[..n]) || (!h.down && Hears(h.client, events[n]) && at == h.client.now)
    {
      HeardNext(now, t, events, at);
    }
  }

  lemma HeardNext(now: Time, t: ConnectToken, events: seq<Event>, at: Time)
    requires WfToken(t) && events != []
    ensures var n := |events| - 1;
      var h := After(now, t, events[..n]);
      SomewhereHeard(now, t, events, at) <==>
      SomewhereHeard(now, t, events[..n], at) || (!h.down && Hears(h.client, events[n]) && at == h.client.now)
  {
    hide After, Hears;
    var n := |events| - 1;
    var h := After(now, t, events[..n]);
    if m: nat :| HeardAt(now, t, events, m, at) {
      if m < n {
        assert events[..n][..m] == events[..m];
        assert HeardAt(now, t, events[..n], m, at);
      }
    }
    if m: nat :| HeardAt(now, t, events[..n], m, at) {
      assert events[..n][..m] == events[..m];
      assert HeardAt(now, t, events, m, at);
    }
    if !h.down && Hears(h.client, events[n]) && at == h.client.now {
      assert HeardAt(now, t, events, n, at);
    }
  }

  lemma {:induction false} RunNotes(now: Time, t: ConnectToken, events: seq<Event>)
    requires WfToken(t)
    ensures Noted(After(now, t, events).client, Times(now, t, events))
  {
    if events == [] {
      assert Times(now, t, []) == iset{};
    } else {
      hide Step, Hears, Times, Noted;
      var n := |events| - 1;
      RunNotes(now, t, events[..n]);
      var h := After(now, t, events[..n]);
      TimesNext(now, t, events);
      if !h.down {
        StepNotes(h.client, events[n], Times(now, t, events[..n]));
      }
    }
  }

  /** Nothing heard within the timeout before `at`; there is no timeout if it is not positive. */
  ghost predicate SilentUntil(now: Time, t: ConnectToken, events: seq<Event>, at: Time)
    requires WfToken(t)
  {
    t.timeoutSeconds > 0 &&
    forall n: nat, heard: Time :: HeardAt(now, t, events, n, heard) ==> heard + t.timeoutSeconds * 1_000_000_000 < at
  }

  /**
   In every run, an `update` of a connected client disconnects it exactly if the server
   was silent for longer than the timeout; otherwise the client stays connected.
   */
  lemma TimesOutIff(now: Time, t: ConnectToken, events: seq<Event>, duration: Time)
    requires WfToken(t) && After(now, t, events).client.state.Connected?
    ensures var c := After(now, t, events).client;
      Update(c, duration).0.state ==
        if SilentUntil(now, t, events, c.now + duration) then Disconnected(ConnectionTimedOut) else Connected
  {
    hide After, SilentUntil, Update;
    AttemptsFollowToken(now, t, events);
    SilentIff(now, t, events, duration);
    ConnectedUpdate(After(now, t, events).client, duration);
  }

  lemma ConnectedUpdate(c: Client, duration: Time)
    requires Wf(c) && c.state.Connected?
    ensures Update(c, duration).0.state ==
      if c.token.timeoutSeconds > 0 && c.lastReceived + c.token.timeoutSeconds * 1_000_000_000 < c.now + duration
      then Disconnected(ConnectionTimedOut) else Connected
  {
  }

  lemma SilentIff(now: Time, t: ConnectToken, events: seq<Event>, duration: Time)
    requires WfToken(t) && After(now, t, events).client.state.Connected?
    ensures var c := After(now, t, events).client;
      SilentUntil(now, t, events, c.now + duration) <==>
      t.timeoutSeconds > 0 && c.lastReceived + t.timeoutSeconds * 1_000_000_000 < c.now + duration
  {
    hide After, HeardAt;
    RunNotes(now, t, events);
    var c := After(now, t, events).client;
    var heard := Times(now, t, events);
    assert c.lastReceived in heard;
    assert SomewhereHeard(now, t, events, c.lastReceived);
    forall n: nat, at: Time | HeardAt(now, t, events, n, at)
      ensures at <= c.lastReceived
    {
      assert at in heard;
    }
  }

  // ---------------------------------------------------------------- attempts

  /** The address after the current one, if the token has one. */
  ghost function NextAddress(c: Client): Option<Address>
    requires WfToken(c.token)
  {
    if c.addrIndex + 1 < |c.token.serverAddresses| then c.token.serverAddresses[c.addrIndex + 1] else None
  }

  /**
   An attempt ends with the token's lifetime, or after the timeout; then the next address
   is tried at once, if there is one. Otherwise the attempt goes on.
   */
  lemma AttemptEndsIff(c: Client, duration: Time)
    requires Wf(c) && Connecting(c)
    ensures var later := c.now + duration;
      var lifetime := c.token.expireTimestamp - c.token.createTimestamp;
      var c' := Update(c, duration).0;
      if later - c.connectStart >= lifetime * 1_000_000_000 then c'.state == Disconnected(ConnectTokenExpired)
      else if c.token.timeoutSeconds > 0 && later - c.lastReceived > c.token.timeoutSeconds * 1_000_000_000 then
        match NextAddress(c)
        case None =>
          c'.state == Disconnected(
            if c.state.SendingConnectionResponse? then ConnectionResponseTimedOut else ConnectionRequestTimedOut)
        case Some(a) =>
          && c'.state == SendingConnectionRequest && c'.serverAddr == a && c'.addrIndex == c.addrIndex + 1
          && c'.connectStart == later && Update(c, duration).1.Some? && Update(c, duration).1.value.Request?
      else c'.state == c.state && c'.serverAddr == c.serverAddr && c'.connectStart == c.connectStart
  {
  }

  /** A client that is not disconnected sends exactly if it has sent nothing for 250 ms in its present state. */
  lemma SendsWhenDue(c: Client, duration: Time)
    requires Wf(c) && Update(c, duration).0.state == c.state && Update(c, duration).0.addrIndex == c.addrIndex
    ensures var due := c.lastSend.None? || c.now + duration - c.lastSend.value >= 250_000_000;
      && (Update(c, duration).1.Some? <==> due && !c.state.Disconnected?)
      && (Update(c, duration).1.Some? ==> Update(c, duration).0.lastSend == Some(c.now + duration))
  {
  }

  /**
   A payload is refused exactly if it is longer than 1300 bytes or the client is not
   connected. Otherwise it counts as sent: no keep-alive follows within 250 ms.
   */
  lemma PayloadDefersKeepAlive(c: Client, payload: seq<byte>, t: Time)
    requires Wf(c)
    ensures var (c', r) := GeneratePayload(c, payload);
      && (r == Err(PayloadAboveLimit) <==> |payload| > 1300)
      && (r == Err(ClientNotConnected) <==> |payload| <= 1300 && !c.state.Connected?)
      && (r.Err? ==> c' == c)
      && (r.Ok? && t < 250_000_000 ==> Update(c', t).1.None?)
  {
  }
}
