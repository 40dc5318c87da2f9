/**
 The netcode client (renetcode/src/client.rs, "Client State Machine" section of the
 Netcode 1.02 standard) as functions of its state.
 */
module NetcodeClient {
  import opened Common
  import opened NetcodePacket
  import R = Replay

  const NANOS_PER_SECOND: nat := 1_000_000_000
  const SEND_RATE: Time := 250_000_000
  const MAX_SERVERS: nat := 32

  datatype ConnectToken = ConnectToken(
    clientId: nat,
    protocolId: nat,
    createTimestamp: nat,
    expireTimestamp: nat,
    xnonce: nat,
    serverAddresses: seq<Option<Address>>,
    clientToServerKey: Key,
    serverToClientKey: Key,
    privateData: TokenData,
    timeoutSeconds: int)

  datatype DisconnectReason =
    | ConnectTokenExpired
    | ConnectionTimedOut
    | ConnectionResponseTimedOut
    | ConnectionRequestTimedOut
    | DeniedByServer
    | DisconnectedByClient
    | DisconnectedByServer

  datatype ClientState =
    | Disconnected(reason: DisconnectReason)
    | SendingConnectionRequest
    | SendingConnectionResponse
    | Connected

  datatype Client = Client(
    state: ClientState,
    clientId: nat,
    connectStart: Time,
    lastSend: Option<Time>,
    lastReceived: Time,
    now: Time,
    sequence: nat,
    serverAddr: Address,
    addrIndex: nat,
    token: ConnectToken,
    challengeSequence: nat,
    challengeData: ChallengeData,
    maxClients: nat,
    clientIndex: nat,
    window: R.Window)

  /** What token generation guarantees. */
  ghost predicate WfToken(t: ConnectToken) {
    && |t.serverAddresses| == MAX_SERVERS && t.serverAddresses[0].Some?
    && t.createTimestamp <= t.expireTimestamp
  }

  ghost predicate Wf(c: Client) {
    WfToken(c.token) && R.Wf(c.window) && c.connectStart <= c.now
  }

  predicate Connecting(c: Client) {
    c.state.SendingConnectionRequest? || c.state.SendingConnectionResponse?
  }

  function New(now: Time, t: ConnectToken): Client
    requires WfToken(t)
  {
    Client(SendingConnectionRequest, t.clientId, now, None, now, now, 0, t.serverAddresses[0].value, 0, t, 0,
           ForgedChallenge, 0, 0, R.New())
  }

  // ---------------------------------------------------------------- packets

  /** What `process_packet` gives the application; the last is not a value of the source: decoding panics. */
  datatype Received = Nothing | PayloadReceived(bytes: seq<byte>) | ClientPanic

  /** The state after a decoded packet, and the payload handed to the application. */
  function Receive(c: Client, b: Body): (Client, Received) {
    match b
    case ConnectionDenied =>
      (if Connecting(c) then c.(state := Disconnected(DeniedByServer), lastReceived := c.now) else c, Nothing)
    case Challenge(sequence, data) =>
      (if c.state.SendingConnectionRequest? then
         c.(challengeSequence := sequence, lastReceived := c.now, lastSend := None, challengeData := data,
            state := SendingConnectionResponse)
       else c, Nothing)
    case KeepAlive(index, max) =>
      (match c.state
       case Connected => c.(lastReceived := c.now)
       case SendingConnectionResponse => c.(lastReceived := c.now, maxClients := max, clientIndex := index, state := Connected)
       case _ => c, Nothing)
    case Payload(bytes) => if c.state.Connected? then (c.(lastReceived := c.now), PayloadReceived(bytes)) else (c, Nothing)
    case Disconnect =>
      (if c.state.Connected? then c.(state := Disconnected(DisconnectedByServer), lastReceived := c.now) else c, Nothing)
    case _ => (c, Nothing)
  }

  /** `process_packet`. */
  function ProcessPacket(c: Client, d: Datagram): (Client, Received)
    requires R.Wf(c.window)
  {
    if d.Request? then (c, Nothing)
    else
      var o := Open(d, c.token.protocolId, c.token.serverToClientKey, c.window);
      var c' := c.(window := o.window);
      if o.result == Err(DecodePanic) then (c, ClientPanic)
      else if o.result.Err? then (c', Nothing)
      else Receive(c', o.result.value)
  }

  /** The client panics exactly on the datagrams that decoding cannot handle. */
  lemma ClientPanicsIff(c: Client, d: Datagram)
    requires R.Wf(c.window)
    ensures ProcessPacket(c, d).1.ClientPanic? <==> Crashes(d, c.window)
    ensures Crashes(d, c.window) ==> ProcessPacket(c, d).0 == c && !Sound(d)
  {
    hide R.Seen;
  }

  /** A denial reaches a client that is connecting, exactly if its sequence is not zero. */
  lemma DenialIsReadIff(c: Client, sequence: nat)
    requires R.Wf(c.window) && Connecting(c)
    ensures var d := Seal(c.token.serverToClientKey, c.token.protocolId, sequence, ConnectionDenied);
      ProcessPacket(c, d).0.state == Disconnected(DeniedByServer) <==> sequence != 0
  {
  }

  // ---------------------------------------------------------------- time

  predicate TimedOut(c: Client) {
    c.token.timeoutSeconds > 0 && c.lastReceived + c.token.timeoutSeconds * NANOS_PER_SECOND < c.now
  }

  /** The whole token has expired since the current attempt began. */
  predicate TokenExpired(c: Client)
    requires WfToken(c.token) && c.connectStart <= c.now
  {
    (c.now - c.connectStart) / NANOS_PER_SECOND >= c.token.expireTimestamp - c.token.createTimestamp
  }

  /** An attempt timed out: the next address is tried, if there is one. */
  function Retry(c: Client): (Client, Option<NetcodeError>)
    requires WfToken(c.token)
  {
    var reason := if c.state.SendingConnectionResponse? then ConnectionResponseTimedOut else ConnectionRequestTimedOut;
    var i := c.addrIndex + 1;
    var c' := c.(state := Disconnected(reason), addrIndex := i);
    if i >= MAX_SERVERS || c.token.serverAddresses[i].None? then (c', Some(NoMoreServers))
    else (c'.(state := SendingConnectionRequest, serverAddr := c.token.serverAddresses[i].value, connectStart := c.now,
              lastSend := None, lastReceived := c.now, challengeSequence := 0), None)
  }

  /** `update_internal_state`. */
  function UpdateState(c0: Client, duration: Time): (Client, Option<NetcodeError>)
    requires Wf(c0)
  {
    var c := c0.(now := c0.now + duration);
    match c.state
    case Disconnected(_) => (c, Some(AlreadyDisconnected))
    case Connected =>
      if TimedOut(c) then (c.(state := Disconnected(ConnectionTimedOut)), Some(AlreadyDisconnected)) else (c, None)
    case _ =>
      if TokenExpired(c) then (c.(state := Disconnected(ConnectTokenExpired)), Some(Expired))
      else if TimedOut(c) then Retry(c)
      else (c, None)
  }

  /** The packet that is due in the current state. */
  function PacketFor(c: Client): Datagram
    requires !c.state.Disconnected?
  {
    match c.state
    case SendingConnectionRequest =>
      Request(true, c.token.protocolId, c.token.expireTimestamp, c.token.xnonce, c.token.privateData)
    case SendingConnectionResponse =>
      Seal(c.token.clientToServerKey, c.token.protocolId, c.sequence, Response(c.challengeSequence, c.challengeData))
    case Connected => Seal(c.token.clientToServerKey, c.token.protocolId, c.sequence, KeepAlive(0, 0))
  }

  /** `generate_packet`. */
  function Generate(c: Client): (Client, Option<Datagram>) {
    if c.lastSend.Some? && c.now - c.lastSend.value < SEND_RATE then (c, None)
    else if c.state.Disconnected? then (c, None)
    else (c.(lastSend := Some(c.now), sequence := c.sequence + 1), Some(PacketFor(c)))
  }

  /** `update`. */
  function Update(c: Client, duration: Time): (Client, Option<Datagram>)
    requires Wf(c)
  {
    var (c', error) := UpdateState(c, duration);
    if error.Some? then (c', None) else Generate(c')
  }

  /** `disconnect`. */
  function DisconnectClient(c: Client): (Client, Datagram) {
    (c.(state := Disconnected(DisconnectedByClient)),
     Seal(c.token.clientToServerKey, c.token.protocolId, c.sequence, Disconnect))
  }

  /** `generate_payload_packet`. */
  function GeneratePayload(c: Client, payload: seq<byte>): (Client, Result<Datagram, NetcodeError>) {
    if |payload| > MAX_PAYLOAD_BYTES then (c, Err(PayloadAboveLimit))
    else if !c.state.Connected? then (c, Err(ClientNotConnected))
    else (c.(sequence := c.sequence + 1, lastSend := Some(c.now)),
          Ok(Seal(c.token.clientToServerKey, c.token.protocolId, c.sequence, Payload(payload))))
  }

  // ---------------------------------------------------------------- runs

  datatype Event = Arrival(datagram: Datagram) | Elapse(duration: Time) | Leave | Send(payload: seq<byte>)

  datatype Stepped = Stepped(client: Client, sent: Option<Datagram>, panicked: bool)

  ghost function Step(c: Client, e: Event): Stepped
    requires Wf(c)
  {
    match e
    case Arrival(d) => var (c', r) := ProcessPacket(c, d); Stepped(c', None, r.ClientPanic?)
    case Elapse(t) => var (c', d) := Update(c, t); Stepped(c', d, false)
    case Leave => var (c', d) := DisconnectClient(c); Stepped(c', Some(d), false)
    case Send(p) =>
      var (c', r) := GeneratePayload(c, p);
      Stepped(c', if r.Ok? then Some(r.value) else None, false)
  }

  /**
   The steps of the client state machine: an attempt ends in the next one, in a
   connection or for good; nothing leads back to an address that was tried before.
   */
  ghost predicate Transition(c: Client, c': Client) {
    && c'.token == c.token && c.addrIndex <= c'.addrIndex <= c.addrIndex + 1
    && (c.state.Disconnected? ==> c'.state.Disconnected? && c'.addrIndex == c.addrIndex)
    && (c'.state.SendingConnectionRequest? ==>
         || (c.state.SendingConnectionRequest? && c'.addrIndex == c.addrIndex && c'.serverAddr == c.serverAddr)
         || (Connecting(c) && c'.addrIndex == c.addrIndex + 1 < MAX_SERVERS &&
             |c.token.serverAddresses| == MAX_SERVERS && Some(c'.serverAddr) == c.token.serverAddresses[c'.addrIndex]))
    && (c'.state.SendingConnectionResponse? ==>
         Connecting(c) && c'.addrIndex == c.addrIndex && c'.serverAddr == c.serverAddr)
    && (c'.state.Connected? ==>
         (c.state.Connected? || c.state.SendingConnectionResponse?) && c'.addrIndex == c.addrIndex &&
         c'.serverAddr == c.serverAddr)
  }

  lemma StepIsTransition(c: Client, e: Event)
    requires Wf(c)
    ensures Wf(Step(c, e).client) && Transition(c, Step(c, e).client)
  {
    hide R.Seen;
  }

  /** The client after some events, the addresses of its attempts in order, and whether it has panicked. */
  datatype History = History(client: Client, attempts: seq<Address>, down: bool)

  ghost function After(now: Time, t: ConnectToken, events: seq<Event>): (h: History)
    requires WfToken(t)
    ensures Wf(h.client)
  {
    if events == [] then History(New(now, t), [New(now, t).serverAddr], false)
    else Next(After(now, t, events[..|events| - 1]), events[|events| - 1])
  }

  ghost function Next(h: History, e: Event): (h': History)
    requires Wf(h.client)
    ensures Wf(h'.client)
  {
    if h.down then h
    else
      StepIsTransition(h.client, e);
      var o := Step(h.client, e);
      var retried := o.client.addrIndex != h.client.addrIndex && o.client.state.SendingConnectionRequest?;
      History(o.client, if retried then h.attempts + [o.client.serverAddr] else h.attempts, o.panicked)
  }

  /** Event `n` of the run is a datagram that decoding cannot handle. */
  ghost predicate HitAt(now: Time, t: ConnectToken, events: seq<Event>, n: nat)
    requires WfToken(t)
  {
    n < |events| && events[n].Arrival? && Crashes(events[n].datagram, After(now, t, events[..n]).client.window)
  }

  lemma NextDownIff(h: History, e: Event)
    requires Wf(h.client)
    ensures Next(h, e).down <==> h.down || (e.Arrival? && Crashes(e.datagram, h.client.window))
  {
    hide Crashes, Update, GeneratePayload;
    if e.Arrival? {
      ClientPanicsIff(h.client, e.datagram);
      hide ProcessPacket;
    }
  }

  lemma HitInPrefix(now: Time, t: ConnectToken, events: seq<Event>, n: nat)
    requires WfToken(t) && events != []
    ensures var m := |events| - 1;
      HitAt(now, t, events, n) <==>
      || HitAt(now, t, events[..m], n)
      || (n == m && events[m].Arrival? && Crashes(events[m].datagram, After(now, t, events[..m]).client.window))
  {
    hide Crashes, After;
    if n < |events| - 1 {
      assert events[..|events| - 1][..n] == events[..n];
    }
  }

  /** A run of the client has panicked exactly if some arrival hit it; sound arrivals never do. */
  lemma {:induction false} DownIffHit(now: Time, t: ConnectToken, events: seq<Event>)
    requires WfToken(t)
    ensures After(now, t, events).down <==> exists n :: HitAt(now, t, events, n)
    ensures After(now, t, events).down ==> exists n :: 0 <= n < |events| && events[n].Arrival? && !Sound(events[n].datagram)
  {
    hide Next;
    if events != [] {
      var m := |events| - 1;
      DownIffHit(now, t, events[..m]);
      NextDownIff(After(now, t, events[..m]), events[m]);
      hide After, HitAt;
      if n :| HitAt(now, t, events, n) {
        HitInPrefix(now, t, events, n);
      }
      if n :| HitAt(now, t, events[..m], n) {
        HitInPrefix(now, t, events, n);
      }
      HitInPrefix(now, t, events, m);
    }
  }

  lemma SoundBytesNeverPanic(now: Time, t: ConnectToken, events: seq<Event>)
    requires WfToken(t) && forall n :: 0 <= n < |events| && events[n].Arrival? ==> FromSoundBytes(events[n].datagram)
    ensures !After(now, t, events).down
  {
    hide After, FromSoundBytes, Sound;
    DownIffHit(now, t, events);
    if n :| 0 <= n < |events| && events[n].Arrival? && !Sound(events[n].datagram) {
      FromSoundIsSound(events[n].datagram);
    }
  }

  /**
   In every run the attempts go through the token's addresses in order, one attempt each,
   so there are at most 32; while the client is not disconnected it uses the last of them.
   */
  lemma {:induction false} AttemptsFollowToken(now: Time, t: ConnectToken, events: seq<Event>)
    requires WfToken(t)
    ensures var h := After(now, t, events);
      && h.client.token == t
      && 1 <= |h.attempts| <= MAX_SERVERS && |h.attempts| <= h.client.addrIndex + 1
      && (forall k :: 0 <= k < |h.attempts| ==> t.serverAddresses[k] == Some(h.attempts[k]))
      && (!h.client.state.Disconnected? ==>
           h.client.addrIndex == |h.attempts| - 1 && h.client.serverAddr == h.attempts[|h.attempts| - 1])
  {
    hide Step;
    if events != [] {
      AttemptsFollowToken(now, t, events[..|events| - 1]);
      StepIsTransition(After(now, t, events[..|events| - 1]).client, events[|events| - 1]);
    }
  }

  /** Once disconnected, a client stays disconnected. */
  lemma {:induction false} DisconnectedForGood(now: Time, t: ConnectToken, events: seq<Event>, more: seq<Event>)
    requires WfToken(t) && After(now, t, events).client.state.Disconnected?
    ensures After(now, t, events + more).client.state.Disconnected?
  {
    hide Step;
    if more == [] {
      assert events + more == events;
    } else {
      var n := |more| - 1;
      DisconnectedForGood(now, t, events, more[..n]);
      assert (events + more)[..|events + more| - 1] == events + more[..n];
      StepIsTransition(After(now, t, events + more[..n]).client, more[n]);
    }
  }
}
