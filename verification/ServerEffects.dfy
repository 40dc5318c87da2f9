/**
 What a netcode server must do, and when (renetcode/src/server.rs): drop pending clients
 whose token has expired, act on each packet of a connected client, answer responses, send
 keep-alives, and let clients know that they are disconnected.
 */
module ServerEffects {
  import opened Common
  import opened NetcodePacket
  import opened NetcodeServer
  import opened ServerRuns
  import SA = ServerAdmission
  import ST = ServerTimeouts
  import C = NetcodeClient
  import CT = ClientTimeouts
  import B = NetcodeBatches
  import R = Replay

  // ---------------------------------------------------------------- pending clients

  ghost predicate AllUnexpired(s: Server) {
    forall a :: a in s.pending ==> s.now / 1_000_000_000 <= s.pending[a].expire
  }

  /** Time drops exactly the pending clients whose token has expired, and changes no other. */
  lemma ElapseDropsExpired(s: Server, duration: Time, a: Address)
    requires Inv(s)
    ensures var s' := Update(s, duration);
      && s'.now == s.now + duration && s' == s.(now := s'.now, pending := s'.pending)
      && (a in s'.pending <==> a in s.pending && (s.now + duration) / 1_000_000_000 <= s.pending[a].expire)
      && (a in s'.pending ==> s'.pending[a] == s.pending[a])
  {
  }

  lemma StepUnexpired(s: Server, e: Event)
    requires Inv(s) && Wf(s) && AllUnexpired(s)
    ensures AllUnexpired(Step(s, e).server)
  {
    if e.Elapse? {
      forall a | a in Step(s, e).server.pending
        ensures Step(s, e).server.now / 1_000_000_000 <= Step(s, e).server.pending[a].expire
      {
        ElapseDropsExpired(s, e.duration, a);
      }
    } else if e.Arrival? {
      ArrivalUnexpired(s, e.addr, e.datagram);
    } else {
      hide Inv, Wf;
    }
  }

  lemma RequestUnexpired(s: Server, a: Address, d: Datagram)
    requires Inv(s) && d.Request? && |s.entries| > 0 && AllUnexpired(s)
    ensures AllUnexpired(HandleRequest(s, a, d).server)
  {
    hide Inv, HandleRequest, SA.IdConnected, SA.AddrConnected, SA.UsedElsewhere, SA.Remembers, SA.OccupiedSlots, R.New;
    SA.RequestIsAnsweredIff(s, a, d);
  }

  lemma ArrivalUnexpired(s: Server, a: Address, d: Datagram)
    requires Inv(s) && Wf(s) && AllUnexpired(s)
    ensures AllUnexpired(ProcessPacket(s, a, d).server)
  {
    hide Inv, HandleRequest, SlotByAddr, SlotById, FreeSlot, R.Seen;
    AddrFound(s.clients, a);
    if d.Request? && SlotByAddr(s.clients, a) == |s.clients| {
      if a in s.pending {
        SA.PendingRefreshed(s, a);
        RequestUnexpired(s.(pending := s.pending[a := s.pending[a].(lastReceived := s.now)]), a, d);
      } else {
        RequestUnexpired(s, a, d);
      }
    }
  }

  /** In every run, no pending client's token has expired. */
  lemma {:induction false} PendingNeverExpired(start: Server, events: seq<Event>)
    requires IsStart(start) && Inv(start)
    ensures AllUnexpired(After(start, events).server)
  {
    hide Inv, Step, Wf;
    if events != [] {
      var n := |events| - 1;
      PendingNeverExpired(start, events[..n]);
      hide AllUnexpired;
      StepUnexpired(After(start, events[..n]).server, events[n]);
    }
  }

  // ---------------------------------------------------------------- packets of a connected client

  /** `d` was sealed by the client of `c` and carries `b`; a protected sequence is new. */
  ghost predicate Opens(s: Server, c: Connection, d: Datagram, b: Body)
    requires R.Wf(c.window)
  {
    && Authentic(d, s.protocolId, c.receiveKey) && d.body == b && !b.Garbled?
    && (Protected(b) ==> !R.Seen(c.window, d.sequence))
  }

  /** What a packet from the client of `c` must make the server report. */
  ghost function Report(s: Server, c: Connection, d: Datagram): ServerResult
    requires R.Wf(c.window)
  {
    if Opens(s, c, d, Disconnect) then ClientDisconnected(c.clientId, c.addr, None)
    else if d.Sealed? && d.body.Payload? && Opens(s, c, d, d.body) then PayloadFrom(c.clientId, d.body.bytes)
    else NoResult
  }

  /**
   Whatever arrives from a connected client's address, apart from what decoding cannot
   handle: a new disconnect packet frees its slot and is reported, a new payload is handed
   out, and nothing else is reported. No other slot and no pending client changes.
   */
  lemma SlotReacts(s: Server, i: nat, d: Datagram)
    requires Inv(s) && Wf(s) && i < |s.clients| && s.clients[i].Some?
    requires !Crashes(d, s.clients[i].value.window)
    ensures var c := s.clients[i].value;
      var o := ProcessPacket(s, c.addr, d);
      && o.result == Report(s, c, d)
      && (o.server.clients == s.clients[i := None] <==> Opens(s, c, d, Disconnect))
      && o.server == s.(clients := o.server.clients) && |o.server.clients| == |s.clients|
      && o.server.clients == s.clients[i := o.server.clients[i]]
  {
    var c := s.clients[i].value;
    AddrFound(s.clients, c.addr);
    assert AddrAt(s.clients, i, c.addr);
    assert SlotByAddr(s.clients, c.addr) == i && c.state.Connected?;
    hide Inv, SlotByAddr;
    SlotActs(s, i, d);
  }

  lemma SlotActs(s: Server, i: nat, d: Datagram)
    requires Wf(s) && i < |s.clients| && s.clients[i].Some? && s.clients[i].value.state.Connected?
    requires !Crashes(d, s.clients[i].value.window)
    ensures var c := s.clients[i].value;
      var o := if d.Malformed? then Outcome(s, NoResult) else FromConnected(s, i, d);
      && o.result == Report(s, c, d)
      && (o.server.clients == s.clients[i := None] <==> Opens(s, c, d, Disconnect))
      && o.server == s.(clients := o.server.clients) && |o.server.clients| == |s.clients|
      && o.server.clients == s.clients[i := o.server.clients[i]]
  {
    hide R.Seen, Wf;
    var o := if d.Malformed? then Outcome(s, NoResult) else FromConnected(s, i, d);
    assert s.clients[i := None][i] == None;
    assert s.clients[i := s.clients[i]] == s.clients;
  }

  // ---------------------------------------------------------------- responses

  /** What a response with the server's own challenge makes of the pending client at `a`. */
  ghost predicate Decides(s: Server, a: Address, id: nat, userData: UserData, o: Outcome)
    requires a in s.pending
  {
    var p := s.pending[a];
    && o.server.pending == s.pending - {a}
    && if SA.IdConnected(s.clients, id) then o.result == NoResult && o.server.clients == s.clients
       else if forall i :: 0 <= i < |s.clients| ==> s.clients[i].Some? then
         && o.result == PacketToSend(a, Seal(p.sendKey, s.protocolId, s.globalSequence, ConnectionDenied))
         && o.server.clients == s.clients
       else
         && o.result.ClientConnected? && o.result.clientId == p.clientId && o.result.addr == a && o.result.userData == userData
         && exists i :: Takes(s, o.server, i, p, userData)
  }

  /** Slot `i` was the first free one and holds the client now. */
  ghost predicate Takes(s: Server, s': Server, i: nat, p: Connection, userData: UserData) {
    && i < |s.clients| && s.clients[i].None? && (forall j :: 0 <= j < i ==> s.clients[j].Some?)
    && |s'.clients| == |s.clients| && s'.clients == s.clients[i := s'.clients[i]]
    && s'.clients[i].Some?
    && var c := s'.clients[i].value;
      && c.state.Connected? && c.clientId == p.clientId && c.addr == p.addr && c.userData == userData
      && c.sendKey == p.sendKey && c.receiveKey == p.receiveKey && c.lastSend == s.now && c.timeoutSeconds == p.timeoutSeconds
  }

  lemma PromoteDecides(s: Server, a: Address, id: nat, userData: UserData)
    requires a in s.pending
    ensures Decides(s, a, id, userData, Promote(s, a, id, userData))
  {
    IdFound(s.clients, id);
    FreeFound(s.clients);
    hide SlotById, FreeSlot;
    var i := FreeSlot(s.clients);
    if i < |s.clients| && SlotById(s.clients, id) == |s.clients| {
      assert Takes(s, Promote(s, a, id, userData).server, i, s.pending[a], userData);
    }
  }

  lemma FreeFound(clients: Slots)
    ensures var k := FreeSlot(clients);
      && (k < |clients| ==> clients[k].None?)
      && forall j :: 0 <= j < k ==> clients[j].Some?
  {
  }

  /**
   A pending client that returns a challenge of this server is decided on: it is dropped if
   the client of the challenge is connected, denied if every slot is taken, and connected in
   the first free slot otherwise. Other packets that open leave it pending.
   */
  lemma ResponseDecides(s: Server, a: Address, d: Datagram, id: nat, userData: UserData)
    requires Inv(s) && Wf(s) && a in s.pending && Authentic(d, s.protocolId, s.pending[a].receiveKey) && d.body.Response?
    ensures var n := d.body.tokenSequence;
      if d.body.tokenData == SealedChallenge(s.challengeKey, n, id, userData) then
        Decides(s, a, id, userData, ProcessPacket(s, a, d))
      else
        d.body.tokenData.ForgedChallenge? || d.body.tokenData.key != s.challengeKey || d.body.tokenData.sequence != n ==>
          ProcessPacket(s, a, d) == Outcome(s.(pending := s.pending[a := s.pending[a].(lastReceived := s.now)]), NoResult)
  {
    AddrFound(s.clients, a);
    assert SlotByAddr(s.clients, a) == |s.clients|;
    hide Inv, SlotByAddr, Promote, Decides;
    var p := s.pending[a].(lastReceived := s.now);
    var s1 := s.(pending := s.pending[a := p]);
    PromoteDecides(s1, a, id, userData);
    assert d.body.tokenData == SealedChallenge(s.challengeKey, d.body.tokenSequence, id, userData) ==>
        ProcessPacket(s, a, d) == Promote(s1, a, id, userData);
    SameDecision(s, s1, a, id, userData, Promote(s1, a, id, userData));
  }

  lemma SameDecision(s: Server, s1: Server, a: Address, id: nat, userData: UserData, o: Outcome)
    requires a in s.pending && s1 == s.(pending := s.pending[a := s.pending[a].(lastReceived := s.now)])
    requires Decides(s1, a, id, userData, o)
    ensures Decides(s, a, id, userData, o)
  {
    assert s1.pending - {a} == s.pending - {a};
    if i :| Takes(s1, o.server, i, s1.pending[a], userData) {
      assert Takes(s, o.server, i, s.pending[a], userData);
    }
  }

  // ---------------------------------------------------------------- keep-alives

  /** A client that is not silent gets a keep-alive exactly if nothing was sent to it for 250 ms. */
  lemma PollKeepsAlive(s: Server, i: nat, id: nat)
    requires Inv(s) && SlotById(s.clients, id) == i < |s.clients|
    requires var c := s.clients[i].value; c.timeoutSeconds > 0 ==> s.now <= c.lastReceived + c.timeoutSeconds * 1_000_000_000
    ensures var c, o := s.clients[i].value, UpdateClient(s, id);
      && |o.server.clients| == |s.clients| && o.server.clients[i].Some? && o.server.clients[i].value.addr == c.addr
      && (o.result == PacketToSend(c.addr, Sealed(c.sendKey, s.protocolId, c.sequence, KeepAlive(i, s.maxClients))) <==>
          s.now - c.lastSend >= 250_000_000)
      && (s.now - c.lastSend < 250_000_000 ==> o == Outcome(s, NoResult))
      && (o.result.PacketToSend? ==> o.server.clients[i].value.lastSend == s.now)
  {
    IdFound(s.clients, id);
    assert s.clients[i].value.state.Connected?;
    hide Inv, SlotById;
  }

  /**
   A payload is refused exactly if it is longer than 1300 bytes or its client is not
   connected. Otherwise it counts as sent: the client gets no keep-alive within 250 ms.
   */
  lemma PayloadDefersKeepAlive(s: Server, id: nat, payload: seq<byte>, t: Time)
    requires Inv(s)
    ensures var (s', r) := GeneratePayload(s, id, payload);
      && (r == Err(PayloadAboveLimit) <==> |payload| > 1300)
      && (r == Err(ClientNotFound) <==> |payload| <= 1300 && !SA.IdConnected(s.clients, id))
      && (r.Err? ==> s' == s)
      && (r.Ok? && t < 250_000_000 ==>
           var o := UpdateClient(Update(s', t), id);
           o.result.ClientDisconnected? || o == Outcome(Update(s', t), NoResult))
  {
    IdFound(s.clients, id);
    var s' := GeneratePayload(s, id, payload).0;
    var i := SlotById(s.clients, id);
    if i < |s.clients| && |payload| <= 1300 {
      ST.SameIdSlot(s.clients, s'.clients, i, id);
    }
    hide Inv, SlotById;
  }

  // ---------------------------------------------------------------- farewells

  /** A client that the server disconnects loses its slot, and is disconnected when the farewell arrives. */
  lemma KickReachesClient(s: Server, i: nat, c: C.Client)
    requires Inv(s) && i < |s.clients| && s.clients[i].Some? && SlotById(s.clients, s.clients[i].value.clientId) == i
    requires c.state.Connected? && c.token.protocolId == s.protocolId
    requires var k := s.clients[i].value;
      k.sendKey == c.token.serverToClientKey && 0 < k.sequence < R.WORD - R.SIZE && B.Below(c.window, k.sequence)
    ensures R.Wf(c.window)
    ensures var k := s.clients[i].value;
      var o := DisconnectClient(s, k.clientId);
      && o.server == s.(clients := s.clients[i := None])
      && o.result.ClientDisconnected? && o.result.clientId == k.clientId && o.result.addr == k.addr && o.result.farewell.Some?
      && C.ProcessPacket(c, o.result.farewell.value).0.state == C.Disconnected(C.DisconnectedByServer)
  {
    var k := s.clients[i].value;
    B.NextPasses(c.window, k.sequence);
    hide Inv, SlotById, B.Below, R.Seen, C.ProcessPacket, R.Wf;
    CT.ArrivalChangesState(c, Sealed(k.sendKey, s.protocolId, k.sequence, Disconnect));
  }

  /** A client that leaves is disconnected, and its slot is freed when its packet arrives. */
  lemma LeaveReachesServer(c: C.Client, s: Server, i: nat)
    requires Inv(s) && Wf(s) && i < |s.clients| && s.clients[i].Some?
    requires c.token.protocolId == s.protocolId && 0 < c.sequence < R.WORD - R.SIZE
    requires var k := s.clients[i].value; k.receiveKey == c.token.clientToServerKey && B.Below(k.window, c.sequence)
    ensures var k := s.clients[i].value;
      var (c', d) := C.DisconnectClient(c);
      && c'.state == C.Disconnected(C.DisconnectedByClient)
      && ProcessPacket(s, k.addr, d) == Outcome(s.(clients := s.clients[i := None]), ClientDisconnected(k.clientId, k.addr, None))
  {
    var k := s.clients[i].value;
    B.NextPasses(k.window, c.sequence);
    hide Inv, B.Below, R.Seen, ProcessPacket, R.Wf;
    SlotReacts(s, i, Sealed(k.receiveKey, s.protocolId, c.sequence, Disconnect));
  }

  // ---------------------------------------------------------------- the limit

  /** After the limit is set, an acceptable request is denied exactly if that many clients, or 1024, are connected. */
  lemma LimitDenies(s: Server, limit: nat, a: Address, d: Datagram)
    requires Inv(s) && d.Request? && SA.Acceptable(s, a, d)
    ensures var s' := SetMaxClients(s, limit);
      && |s'.entries| > 0 && HandleRequest(s', a, d).result.PacketToSend?
      && var packet := HandleRequest(s', a, d).result.packet;
        var connected := |SA.OccupiedSlots(s.clients)|;
        ((packet.Sealed? && packet.body.Challenge?) <==> connected < limit && connected < 1024)
  {
    var s' := SetMaxClients(s, limit);
    FieldsInv(s, s');
    hide Inv, HandleRequest, SA.IdConnected, SA.AddrConnected, SA.UsedElsewhere, SA.Remembers, SA.OccupiedSlots, R.New;
    SA.RequestIsAnsweredIff(s', a, d);
  }
}
