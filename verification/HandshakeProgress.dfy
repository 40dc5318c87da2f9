/**
 The handshake completes and payloads get through if nothing is lost
 (renetcode/src/client.rs, renetcode/src/server.rs).
 */
module HandshakeProgress {
  import opened Common
  import opened NetcodePacket
  import S = NetcodeServer
  import SR = ServerRuns
  import C = NetcodeClient
  import R = Replay

  // ---------------------------------------------------------------- completion

  /** The token was made for this server, and nothing stands against its client at address `a`. */
  ghost predicate Welcome(s: S.Server, t: C.ConnectToken, a: Address) {
    && SR.Inv(s) && C.WfToken(t) && t.createTimestamp < t.expireTimestamp
    && t.privateData.SealedToken? && t.privateData.key == s.connectKey
    && t.privateData.protocolId == t.protocolId == s.protocolId
    && t.privateData.expire == t.expireTimestamp > S.Seconds(s.now) && t.privateData.xnonce == t.xnonce
    && t.privateData.token.clientToServerKey == t.clientToServerKey
    && t.privateData.token.serverToClientKey == t.serverToClientKey
    && (s.secure ==> S.InHostList(t.privateData.token, s.publicAddresses))
    && S.SlotById(s.clients, t.privateData.token.clientId) == |s.clients|
    && S.SlotByAddr(s.clients, a) == |s.clients|
    && a !in s.pending && |s.pending| < S.MAX_PENDING_CLIENTS
    && (forall i :: 0 <= i < |s.entries| && S.HasMac(s.entries[i], t.privateData.mac) ==> s.entries[i].value.address == a)
    && S.Occupied(s.clients) < s.maxClients && S.FreeSlot(s.clients) < |s.clients|
  }

  /** The client's first packet is the request of its token. */
  lemma FirstPacket(now: Time, t: C.ConnectToken)
    requires C.WfToken(t) && t.createTimestamp < t.expireTimestamp
    ensures var (c, d) := C.Update(C.New(now, t), 0);
      && d == Some(Request(true, t.protocolId, t.expireTimestamp, t.xnonce, t.privateData))
      && c == C.New(now, t).(lastSend := Some(now), sequence := 1)
  {
  }

  /** The server answers it with a challenge for the token's client. */
  lemma RequestIsChallenged(s: S.Server, t: C.ConnectToken, a: Address)
    requires Welcome(s, t, a)
    ensures var d := Request(true, t.protocolId, t.expireTimestamp, t.xnonce, t.privateData);
      var o := S.ProcessPacket(s, a, d);
      var p := t.privateData.token;
      var n := s.challengeSequence + 1;
      && o.result == S.PacketToSend(a, Sealed(t.serverToClientKey, s.protocolId, s.globalSequence,
                       Challenge(n, SealedChallenge(s.challengeKey, n, p.clientId, p.userData))))
      && o.server.clients == s.clients && o.server.protocolId == s.protocolId && o.server.challengeKey == s.challengeKey
      && o.server.maxClients == s.maxClients && S.Wf(o.server)
      && a in o.server.pending && o.server.pending[a] == S.NewPending(s, a, t.expireTimestamp, p)
  {
    var d := Request(true, t.protocolId, t.expireTimestamp, t.xnonce, t.privateData);
    SR.FindOrAddSpec(s.entries, S.TokenEntry(s.now, a, t.privateData.mac));
    SR.ProcessPacketInv(s, a, d);
    SR.InvWf(S.ProcessPacket(s, a, d).server);
    hide S.FindOrAdd, S.SlotById, S.SlotByAddr, S.FreeSlot, S.Occupied, S.InHostList, SR.Inv, R.New;
    assert S.Wf(s) by { SR.InvWf(s); }
  }

  /** The client takes the challenge up. */
  lemma ChallengeIsTaken(c: C.Client, sequence: nat, n: nat, data: ChallengeData)
    requires C.Wf(c) && c.state.SendingConnectionRequest? && c.connectStart == c.now == c.lastReceived
    requires c.token.createTimestamp < c.token.expireTimestamp
    ensures var c1 := C.ProcessPacket(c, Sealed(c.token.serverToClientKey, c.token.protocolId, sequence, Challenge(n, data))).0;
      && C.Wf(c1)
      && var (c2, d) := C.Update(c1, 0);
        && d == Some(Sealed(c.token.clientToServerKey, c.token.protocolId, c.sequence, Response(n, data)))
        && c2.state.SendingConnectionResponse? && c2.token == c.token && c2.window == c.window
  {
  }

  /** The server connects the client that answers. */
  lemma ResponseIsAccepted(s: S.Server, a: Address, key: Key, sequence: nat, n: nat, id: nat, userData: UserData)
    requires S.Wf(s) && S.SlotByAddr(s.clients, a) == |s.clients| && a in s.pending && s.pending[a].receiveKey == key
    requires S.SlotById(s.clients, id) == |s.clients| && S.FreeSlot(s.clients) < |s.clients|
    ensures var d := Sealed(key, s.protocolId, sequence, Response(n, SealedChallenge(s.challengeKey, n, id, userData)));
      var o := S.ProcessPacket(s, a, d);
      var p := s.pending[a];
      && o.result == S.ClientConnected(p.clientId, a, userData,
                       Sealed(p.sendKey, s.protocolId, p.sequence, KeepAlive(S.FreeSlot(s.clients), s.maxClients)))
      && S.FreeSlot(s.clients) < |o.server.clients|
      && S.HasId(o.server.clients[S.FreeSlot(s.clients)], p.clientId)
  {
    hide S.SlotById, S.SlotByAddr, S.FreeSlot;
  }

  /** The client is connected once the server's keep-alive arrives. */
  lemma KeepAliveConnects(c: C.Client, index: nat, max: nat)
    requires c.state.SendingConnectionResponse? && c.window == R.New()
    ensures var c' := C.ProcessPacket(c, Sealed(c.token.serverToClientKey, c.token.protocolId, 0, KeepAlive(index, max))).0;
      c'.state.Connected? && c'.clientIndex == index && c'.maxClients == max
  {
  }

  /**
   If nothing is lost, the handshake completes: two packets of the client and two of the
   server later, the server has reported the token's client as connected, and the client
   is connected and knows its slot and the server's limit.
   */
  lemma HandshakeCompletes(s: S.Server, t: C.ConnectToken, a: Address, now: Time)
    requires Welcome(s, t, a)
    ensures var (c1, request) := C.Update(C.New(now, t), 0);
      && request.Some?
      && S.Wf(s)
      && var o1 := S.ProcessPacket(s, a, request.value);
        && o1.result.PacketToSend? && S.Wf(o1.server) && R.Wf(c1.window)
        && var c2 := C.ProcessPacket(c1, o1.result.packet).0;
          && C.Wf(c2)
          && var (c3, response) := C.Update(c2, 0);
            && response.Some? && R.Wf(c3.window)
            && var o2 := S.ProcessPacket(o1.server, a, response.value);
              && o2.result.ClientConnected? && o2.result.clientId == t.privateData.token.clientId
              && o2.result.userData == t.privateData.token.userData
              && S.SlotById(o2.server.clients, t.privateData.token.clientId) < |o2.server.clients|
              && var c4 := C.ProcessPacket(c3, o2.result.packet).0;
                && c4.state.Connected? && c4.maxClients == s.maxClients && c4.clientIndex < |o2.server.clients|
                && S.HasId(o2.server.clients[c4.clientIndex], t.privateData.token.clientId)
  {
    SR.InvWf(s);
    FirstPacket(now, t);
    RequestIsChallenged(s, t, a);
    hide S.ProcessPacket, C.ProcessPacket, C.Update, SR.Inv, S.SlotById, S.SlotByAddr, S.FreeSlot, R.Seen, R.New;
    var c1 := C.Update(C.New(now, t), 0).0;
    assert C.Wf(c1) by { assert R.Wf(R.New()); }
    var o1 := S.ProcessPacket(s, a, C.Update(C.New(now, t), 0).1.value);
    var n := s.challengeSequence + 1;
    ChallengeIsTaken(c1, s.globalSequence, n, o1.result.packet.body.tokenData);
    var (c3, response) := C.Update(C.ProcessPacket(c1, o1.result.packet).0, 0);
    var p := t.privateData.token;
    ResponseIsAccepted(o1.server, a, t.clientToServerKey, 1, n, p.clientId, p.userData);
    var o2 := S.ProcessPacket(o1.server, a, response.value);
    KeepAliveConnects(c3, S.FreeSlot(s.clients), s.maxClients);
    SlotFound(o2.server.clients, S.FreeSlot(s.clients), p.clientId);
  }

  lemma SlotFound(clients: SR.Slots, i: nat, id: nat)
    requires i < |clients| && S.HasId(clients[i], id)
    ensures S.SlotById(clients, id) < |clients|
  {
  }

  /**
   The challenge and the keep-alive that connects a client are sealed with one key: the
   first with the server's own counter, the second with the connection's. They carry the
   same sequence exactly if the server had sealed no challenge or denial before.
   */
  lemma ChallengeSharesSequenceIff(s: S.Server, t: C.ConnectToken, a: Address, q: nat)
    requires Welcome(s, t, a)
    ensures S.Wf(s)
    ensures var o1 := S.ProcessPacket(s, a, Request(true, t.protocolId, t.expireTimestamp, t.xnonce, t.privateData));
      && S.Wf(o1.server) && o1.result.PacketToSend? && o1.result.packet.Sealed? && o1.result.packet.body.Challenge?
      && var b := o1.result.packet.body;
        var response := Sealed(t.clientToServerKey, t.protocolId, q, Response(b.tokenSequence, b.tokenData));
        var o2 := S.ProcessPacket(o1.server, a, response);
        && o2.result.ClientConnected? && o2.result.packet.Sealed? && o2.result.packet.body.KeepAlive?
        && o2.result.packet.key == o1.result.packet.key == t.serverToClientKey
        && (o2.result.packet.sequence == o1.result.packet.sequence <==> s.globalSequence == 0)
  {
    SR.InvWf(s);
    RequestIsChallenged(s, t, a);
    hide S.ProcessPacket, SR.Inv, S.SlotById, S.SlotByAddr, S.FreeSlot, R.New;
    var o1 := S.ProcessPacket(s, a, Request(true, t.protocolId, t.expireTimestamp, t.xnonce, t.privateData));
    var p, n := t.privateData.token, s.challengeSequence + 1;
    ResponseIsAccepted(o1.server, a, t.clientToServerKey, q, n, p.clientId, p.userData);
  }

  // ---------------------------------------------------------------- payloads

  /**
   A new payload of a connected client reaches the application, and so does the server's,
   exactly if it is not empty or its sequence is not zero.
   */
  lemma PayloadGetsThrough(s: S.Server, i: nat, c: C.Client, payload: seq<byte>)
    requires SR.Inv(s) && i < |s.clients| && s.clients[i].Some? && |payload| <= MAX_PAYLOAD_BYTES
    requires var k := s.clients[i].value;
      && k.receiveKey == c.token.clientToServerKey && k.sendKey == c.token.serverToClientKey
      && c.state.Connected? && c.token.protocolId == s.protocolId && C.Wf(c)
      && !R.Seen(k.window, c.sequence) && !R.Seen(c.window, k.sequence)
      && S.SlotById(s.clients, k.clientId) == i
    ensures var k, up := s.clients[i].value, C.GeneratePayload(c, payload).1;
      && up.Ok?
      && (S.ProcessPacket(s, k.addr, up.value).result == S.PayloadFrom(k.clientId, payload) <==> payload != [] || c.sequence > 0)
    ensures var k := s.clients[i].value;
      var down := S.GeneratePayload(s, k.clientId, payload).1;
      && down.Ok? && down.value.0 == k.addr
      && (C.ProcessPacket(c, down.value.1).1 == C.PayloadReceived(payload) <==> payload != [] || k.sequence > 0)
  {
    var k := s.clients[i].value;
    SR.AddrFound(s.clients, k.addr);
    assert SR.AddrAt(s.clients, i, k.addr) && k.state.Connected?;
    assert S.SlotByAddr(s.clients, k.addr) == i;
    hide R.Seen, S.SlotByAddr, S.SlotById;
  }

  /** A connected client that has just heard from the server stays connected until its timeout. */
  lemma HearingKeepsClient(c: C.Client, d: Datagram, t: Time)
    requires C.Wf(c) && c.state.Connected? && d.Sealed? && (d.body.KeepAlive? || d.body.Payload?)
    requires Open(d, c.token.protocolId, c.token.serverToClientKey, c.window).result.Ok?
    requires t <= c.token.timeoutSeconds * C.NANOS_PER_SECOND
    ensures var c' := C.ProcessPacket(c, d).0; C.Wf(c') && C.Update(c', t).0.state.Connected?
  {
    hide R.Seen;
  }
}
