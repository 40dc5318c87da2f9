/**
 The netcode server (renetcode/src/server.rs, "Server-Side Connection Process" section of
 the Netcode 1.02 standard) as functions of its state.
 */
module NetcodeServer {
  import opened Common
  import opened NetcodePacket
  import R = Replay

  const MAX_CLIENTS: nat := 1024
  const MAX_PENDING_CLIENTS: nat := MAX_CLIENTS * 4
  const TOKEN_ENTRIES: nat := MAX_CLIENTS * 2
  const NANOS_PER_SECOND: nat := 1_000_000_000
  const SEND_RATE: Time := 250_000_000

  function Seconds(t: Time): nat {
    t / NANOS_PER_SECOND
  }

  datatype ConnectionState = PendingResponse | Connected | Disconnected

  datatype Connection = Connection(
    confirmed: bool,
    clientId: nat,
    state: ConnectionState,
    sendKey: Key,
    receiveKey: Key,
    userData: UserData,
    addr: Address,
    lastReceived: Time,
    lastSend: Time,
    timeoutSeconds: int,
    sequence: nat,
    expire: nat,
    window: R.Window)

  datatype TokenEntry = TokenEntry(time: Time, address: Address, mac: nat)

  datatype Server = Server(
    clients: seq<Option<Connection>>,
    pending: map<Address, Connection>,
    entries: seq<Option<TokenEntry>>,
    protocolId: nat,
    connectKey: Key,
    maxClients: nat,
    challengeSequence: nat,
    challengeKey: Key,
    publicAddresses: seq<Address>,
    now: Time,
    globalSequence: nat,
    secure: bool)

  datatype ServerResult =
    | NoResult
    | PacketToSend(addr: Address, packet: Datagram)
    | PayloadFrom(clientId: nat, bytes: seq<byte>)
    | ClientConnected(clientId: nat, addr: Address, userData: UserData, packet: Datagram)
    | ClientDisconnected(clientId: nat, addr: Address, farewell: Option<Datagram>)
    | ServerPanic // not a result of the source: decoding panics

  datatype Outcome = Outcome(server: Server, result: ServerResult)

  ghost predicate WfConnection(c: Connection) {
    R.Wf(c.window)
  }

  ghost predicate Wf(s: Server) {
    && |s.entries| == TOKEN_ENTRIES
    && (forall i :: 0 <= i < |s.clients| && s.clients[i].Some? ==> WfConnection(s.clients[i].value))
    && (forall a :: a in s.pending ==> WfConnection(s.pending[a]))
  }

  function New(
    now: Time, maxClients: nat, protocolId: nat, addresses: seq<Address>, connectKey: Key, challengeKey: Key,
    secure: bool): Server
  {
    Server(seq(maxClients, _ => None), map[], seq(TOKEN_ENTRIES, _ => None), protocolId, connectKey, maxClients, 0,
           challengeKey, addresses, now, 0, secure)
  }

  // ---------------------------------------------------------------- lookups

  /** The first slot that satisfies `p`, or the number of slots. */
  function FirstSlot(clients: seq<Option<Connection>>, p: Option<Connection> -> bool): (k: nat)
    ensures k <= |clients|
    ensures k < |clients| ==> p(clients[k])
    ensures forall i :: 0 <= i < k ==> !p(clients[i])
    decreases |clients|
  {
    if clients == [] || p(clients[0]) then 0 else 1 + FirstSlot(clients[1..], p)
  }

  predicate HasId(slot: Option<Connection>, id: nat) {
    slot.Some? && slot.value.clientId == id
  }

  predicate HasAddr(slot: Option<Connection>, addr: Address) {
    slot.Some? && slot.value.addr == addr
  }

  function SlotById(clients: seq<Option<Connection>>, id: nat): (k: nat)
    ensures k <= |clients|
  {
    FirstSlot(clients, slot => HasId(slot, id))
  }

  function SlotByAddr(clients: seq<Option<Connection>>, addr: Address): (k: nat)
    ensures k <= |clients|
  {
    FirstSlot(clients, slot => HasAddr(slot, addr))
  }

  function FreeSlot(clients: seq<Option<Connection>>): (k: nat)
    ensures k <= |clients|
  {
    FirstSlot(clients, (slot: Option<Connection>) => slot.None?)
  }

  function Occupied(clients: seq<Option<Connection>>): nat {
    if clients == [] then 0
    else Occupied(clients[..|clients| - 1]) + if clients[|clients| - 1].Some? then 1 else 0
  }

  // ---------------------------------------------------------------- connect token entries

  predicate HasMac(e: Option<TokenEntry>, mac: nat) {
    e.Some? && e.value.mac == mac
  }

  /** The last entry below `k` with this MAC, if any. */
  function Matching(entries: seq<Option<TokenEntry>>, mac: nat, k: nat): Option<TokenEntry>
    requires k <= |entries|
  {
    if k == 0 then None
    else if HasMac(entries[k - 1], mac) then entries[k - 1]
    else Matching(entries, mac, k - 1)
  }

  /** The entry to be replaced: the first free one, or else the first of the oldest ones. */
  function Victim(entries: seq<Option<TokenEntry>>, k: nat): (v: nat)
    requires k <= |entries|
    ensures v < k || (k == 0 && v == 0)
  {
    if k == 0 then 0
    else
      var v := Victim(entries, k - 1);
      if k == 1 || entries[v].None? then v
      else if entries[k - 1].None? || entries[k - 1].value.time < entries[v].value.time then k - 1
      else v
  }

  /** `find_or_add_connect_token_entry`: whether the token may be used from this address. */
  function FindOrAdd(entries: seq<Option<TokenEntry>>, e: TokenEntry): (bool, seq<Option<TokenEntry>>)
    requires |entries| > 0
  {
    var m := Matching(entries, e.mac, |entries|);
    if m.Some? then (m.value.address == e.address, entries)
    else (true, entries[Victim(entries, |entries|) := Some(e)])
  }

  // ---------------------------------------------------------------- connection requests

  /** `PrivateConnectToken::decode`. */
  function OpenToken(data: TokenData, protocolId: nat, expire: nat, xnonce: nat, key: Key): Option<PrivateToken> {
    if && data.SealedToken? && data.key == key && data.protocolId == protocolId
       && data.expire == expire && data.xnonce == xnonce
    then Some(data.token)
    else None
  }

  predicate InHostList(token: PrivateToken, addresses: seq<Address>) {
    exists i :: 0 <= i < |token.serverAddresses| && token.serverAddresses[i].Some? &&
                token.serverAddresses[i].value in addresses
  }

  /** Why a request is not considered at all. */
  function RequestError(s: Server, d: Datagram): Option<NetcodeError>
    requires d.Request?
  {
    if !d.validVersion then Some(InvalidVersion)
    else if d.protocolId != s.protocolId then Some(InvalidProtocolID)
    else if Seconds(s.now) >= d.expire then Some(Expired)
    else
      var t := OpenToken(d.data, s.protocolId, d.expire, d.xnonce, s.connectKey);
      if t.None? then Some(CryptoError)
      else if s.secure && !InHostList(t.value, s.publicAddresses) then Some(NotInHostList)
      else None
  }

  function NewPending(s: Server, addr: Address, expire: nat, t: PrivateToken): Connection {
    Connection(false, t.clientId, PendingResponse, t.serverToClientKey, t.clientToServerKey, t.userData, addr,
               s.now, s.now, t.timeoutSeconds, 0, expire, R.New())
  }

  /** A request with a valid token, after the checks that need no state of their own. */
  function Admit(s: Server, addr: Address, d: Datagram, t: PrivateToken): Outcome
    requires d.Request?
  {
    if Occupied(s.clients) >= s.maxClients then
      var denial := Seal(t.serverToClientKey, s.protocolId, s.globalSequence, ConnectionDenied);
      Outcome(s.(pending := s.pending - {addr}, globalSequence := s.globalSequence + 1), PacketToSend(addr, denial))
    else
      var sequence := s.challengeSequence + 1;
      var challenge := Challenge(sequence, SealedChallenge(s.challengeKey, sequence, t.clientId, t.userData));
      var kept := if addr in s.pending then s.pending[addr] else NewPending(s, addr, d.expire, t);
      Outcome(s.(challengeSequence := sequence,
                 globalSequence := s.globalSequence + 1,
                 pending := s.pending[addr := kept.(lastReceived := s.now, lastSend := s.now)]),
              PacketToSend(addr, Seal(t.serverToClientKey, s.protocolId, s.globalSequence, challenge)))
  }

  /** `handle_connection_request`. */
  function HandleRequest(s: Server, addr: Address, d: Datagram): Outcome
    requires d.Request? && |s.entries| > 0
  {
    if RequestError(s, d).Some? then Outcome(s, NoResult)
    else
      var t := OpenToken(d.data, s.protocolId, d.expire, d.xnonce, s.connectKey).value;
      if SlotById(s.clients, t.clientId) < |s.clients| || SlotByAddr(s.clients, addr) < |s.clients| then
        Outcome(s, NoResult)
      else if addr !in s.pending && |s.pending| >= MAX_PENDING_CLIENTS then Outcome(s, NoResult)
      else
        var (ok, entries) := FindOrAdd(s.entries, TokenEntry(s.now, addr, d.data.mac));
        if !ok then Outcome(s, NoResult) else Admit(s.(entries := entries), addr, d, t)
  }

  // ---------------------------------------------------------------- packets

  /** A packet from the client in slot `i`. */
  function FromConnected(s: Server, i: nat, d: Datagram): Outcome
    requires Wf(s) && i < |s.clients| && s.clients[i].Some?
  {
    var c := s.clients[i].value;
    if d.Request? then
      // A connection request is decoded without a key; a connected client's is ignored.
      Outcome(s.(clients := s.clients[i := Some(c.(lastReceived := s.now))]), NoResult)
    else
      var o := Open(d, s.protocolId, c.receiveKey, c.window);
      if o.result == Err(DecodePanic) then Outcome(s, ServerPanic)
      else if o.result.Err? then Outcome(s.(clients := s.clients[i := Some(c.(window := o.window))]), NoResult)
      else
        var c' := c.(window := o.window, lastReceived := s.now);
        if !c.state.Connected? then Outcome(s.(clients := s.clients[i := Some(c')]), NoResult)
        else
          match o.result.value
          case Disconnect => Outcome(s.(clients := s.clients[i := None]), ClientDisconnected(c.clientId, c.addr, None))
          case Payload(bytes) =>
            Outcome(s.(clients := s.clients[i := Some(c'.(confirmed := true))]), PayloadFrom(c.clientId, bytes))
          case KeepAlive(_, _) => Outcome(s.(clients := s.clients[i := Some(c'.(confirmed := true))]), NoResult)
          case _ => Outcome(s.(clients := s.clients[i := Some(c')]), NoResult)
  }

  /** The pending client at `addr` answered the challenge with token `id`, `userData`. */
  function Promote(s: Server, addr: Address, id: nat, userData: UserData): Outcome
    requires addr in s.pending
  {
    var p := s.pending[addr];
    var s' := s.(pending := s.pending - {addr});
    var i := FreeSlot(s.clients);
    if SlotById(s.clients, id) < |s.clients| then Outcome(s', NoResult)
    else if i == |s.clients| then
      var denial := Seal(p.sendKey, s.protocolId, s.globalSequence, ConnectionDenied);
      Outcome(s'.(globalSequence := s.globalSequence + 1), PacketToSend(addr, denial))
    else
      var keepAlive := Seal(p.sendKey, s.protocolId, p.sequence, KeepAlive(i, s.maxClients));
      var c := p.(state := Connected, userData := userData, lastSend := s.now, sequence := p.sequence + 1);
      Outcome(s'.(clients := s.clients[i := Some(c)]), ClientConnected(p.clientId, addr, userData, keepAlive))
  }

  /** `ChallengeToken::decode`. */
  predicate Answers(b: Body, key: Key) {
    b.Response? && b.tokenData.SealedChallenge? && b.tokenData.key == key && b.tokenData.sequence == b.tokenSequence
  }

  /** A packet from a pending client. */
  function FromPending(s: Server, addr: Address, d: Datagram): Outcome
    requires Wf(s) && addr in s.pending
  {
    var p := s.pending[addr];
    if d.Request? then HandleRequest(s.(pending := s.pending[addr := p.(lastReceived := s.now)]), addr, d)
    else
      var o := Open(d, s.protocolId, p.receiveKey, p.window);
      if o.result == Err(DecodePanic) then Outcome(s, ServerPanic)
      else if o.result.Err? then Outcome(s.(pending := s.pending[addr := p.(window := o.window)]), NoResult)
      else
        var s' := s.(pending := s.pending[addr := p.(window := o.window, lastReceived := s.now)]);
        if Answers(o.result.value, s.challengeKey) then
          Promote(s', addr, o.result.value.tokenData.clientId, o.result.value.tokenData.userData)
        else Outcome(s', NoResult)
  }

  /** `process_packet`. */
  function ProcessPacket(s: Server, addr: Address, d: Datagram): Outcome
    requires Wf(s)
  {
    var i := SlotByAddr(s.clients, addr);
    if d.Malformed? then Outcome(s, NoResult)
    else if i < |s.clients| then FromConnected(s, i, d)
    else if addr in s.pending then FromPending(s, addr, d)
    else if d.Request? then HandleRequest(s, addr, d)
    else Outcome(s, NoResult)
  }

  // ---------------------------------------------------------------- time and commands

  /** The pending clients whose token has not expired. */
  function Unexpired(pending: map<Address, Connection>, now: Time): map<Address, Connection> {
    map a | a in pending && Seconds(now) <= pending[a].expire && !pending[a].state.Disconnected? :: pending[a]
  }

  /** `update`: pending clients whose token has expired are dropped. */
  function Update(s: Server, duration: Time): Server {
    s.(now := s.now + duration, pending := Unexpired(s.pending, s.now + duration))
  }

  predicate TimedOut(c: Connection, now: Time) {
    c.timeoutSeconds > 0 && c.lastReceived + c.timeoutSeconds * NANOS_PER_SECOND < now
  }

  function Farewell(s: Server, c: Connection): ServerResult {
    ClientDisconnected(c.clientId, c.addr, Some(Seal(c.sendKey, s.protocolId, c.sequence, Disconnect)))
  }

  /** `update_client`. */
  function UpdateClient(s: Server, id: nat): Outcome {
    var i := SlotById(s.clients, id);
    if i == |s.clients| then Outcome(s, NoResult)
    else
      var c := s.clients[i].value;
      if TimedOut(c, s.now) || c.state.Disconnected? then Outcome(s.(clients := s.clients[i := None]), Farewell(s, c))
      else if c.lastSend + SEND_RATE <= s.now then
        var keepAlive := Seal(c.sendKey, s.protocolId, c.sequence, KeepAlive(i, s.maxClients));
        Outcome(s.(clients := s.clients[i := Some(c.(sequence := c.sequence + 1, lastSend := s.now))]),
                PacketToSend(c.addr, keepAlive))
      else Outcome(s, NoResult)
  }

  /** `disconnect`. */
  function DisconnectClient(s: Server, id: nat): Outcome {
    var i := SlotById(s.clients, id);
    if i == |s.clients| then Outcome(s, NoResult)
    else Outcome(s.(clients := s.clients[i := None]), Farewell(s, s.clients[i].value))
  }

  /** `set_max_clients`. */
  function SetMaxClients(s: Server, n: nat): Server {
    s.(maxClients := if n < MAX_CLIENTS then n else MAX_CLIENTS)
  }

  /** `generate_payload_packet`. */
  function GeneratePayload(s: Server, id: nat, payload: seq<byte>)
    : (Server, Result<(Address, Datagram), NetcodeError>)
  {
    var i := SlotById(s.clients, id);
    if |payload| > MAX_PAYLOAD_BYTES then (s, Err(PayloadAboveLimit))
    else if i == |s.clients| then (s, Err(ClientNotFound))
    else
      var c := s.clients[i].value;
      (s.(clients := s.clients[i := Some(c.(sequence := c.sequence + 1, lastSend := s.now))]),
       Ok((c.addr, Seal(c.sendKey, s.protocolId, c.sequence, Payload(payload)))))
  }
}
