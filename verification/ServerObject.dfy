/**
 `NetcodeServer` (renetcode/src/server.rs) as the object it is, proved against the functions
 of the same names and keeping the invariant of `ServerRuns`.
 */
module ServerObject {
  import opened Common
  import opened NetcodePacket
  import opened Spec = NetcodeServer
  import SR = ServerRuns
  import R = Replay

  // ---------------------------------------------------------------- lookups

  lemma {:induction false} FirstSlotIs(clients: seq<Option<Connection>>, p: Option<Connection> -> bool, k: nat)
    requires k <= |clients| && (forall i :: 0 <= i < k ==> !p(clients[i])) && (k < |clients| ==> p(clients[k]))
    ensures FirstSlot(clients, p) == k
  {
  }

  /** `find_client_slot_by_id`; the number of slots if there is none. */
  method FindSlotById(clients: array<Option<Connection>>, id: nat) returns (slot: nat)
    ensures slot == SlotById(clients[..], id)
  {
    slot := 0;
    while slot < clients.Length && !HasId(clients[slot], id)
      invariant slot <= clients.Length
      invariant forall i :: 0 <= i < slot ==> !HasId(clients[i], id)
    {
      slot := slot + 1;
    }
    FirstSlotIs(clients[..], c => HasId(c, id), slot);
  }

  /** `find_client_mut_by_addr`. */
  method FindSlotByAddr(clients: array<Option<Connection>>, addr: Address) returns (slot: nat)
    ensures slot == SlotByAddr(clients[..], addr)
  {
    slot := 0;
    while slot < clients.Length && !HasAddr(clients[slot], addr)
      invariant slot <= clients.Length
      invariant forall i :: 0 <= i < slot ==> !HasAddr(clients[i], addr)
    {
      slot := slot + 1;
    }
    FirstSlotIs(clients[..], c => HasAddr(c, addr), slot);
  }

  method FindFreeSlot(clients: array<Option<Connection>>) returns (slot: nat)
    ensures slot == FreeSlot(clients[..])
  {
    slot := 0;
    while slot < clients.Length && clients[slot].Some?
      invariant slot <= clients.Length
      invariant forall i :: 0 <= i < slot ==> clients[i].Some?
    {
      slot := slot + 1;
    }
    FirstSlotIs(clients[..], (c: Option<Connection>) => c.None?, slot);
  }

  /** `connected_clients`. */
  method CountOccupied(clients: array<Option<Connection>>) returns (n: nat)
    ensures n == Occupied(clients[..])
  {
    n := 0;
    for i := 0 to clients.Length
      invariant n == Occupied(clients[..i])
    {
      assert clients[..i + 1][..i] == clients[..i];
      if clients[i].Some? {
        n := n + 1;
      }
    }
    assert clients[..clients.Length] == clients[..];
  }

  /** An expired pending client is marked as disconnected. */
  ghost function Marked(c: Connection, now: Time): Connection {
    if Seconds(now) > c.expire then c.(state := Disconnected) else c
  }

  /** The pending clients that are not marked. */
  function Retained(pending: map<Address, Connection>): map<Address, Connection> {
    map a | a in pending && !pending[a].state.Disconnected? :: pending[a]
  }

  lemma MarkThenRetain(before: map<Address, Connection>, marked: map<Address, Connection>, now: Time)
    requires marked.Keys == before.Keys && forall a :: a in before ==> marked[a] == Marked(before[a], now)
    ensures Retained(marked) == Unexpired(before, now)
  {
  }

  class NetcodeServer {
    const clients: array<Option<Connection>>
    var pendingClients: map<Address, Connection>
    const connectTokenEntries: array<Option<TokenEntry>>
    const protocolId: nat
    const connectKey: Key
    var maxClients: nat
    var challengeSequence: nat
    const challengeKey: Key
    const publicAddresses: seq<Address>
    var currentTime: Time
    var globalSequence: nat
    const secure: bool

    ghost function Model(): Server
      reads this, clients, connectTokenEntries
    {
      Server(clients[..], pendingClients, connectTokenEntries[..], protocolId, connectKey, maxClients, challengeSequence,
             challengeKey, publicAddresses, currentTime, globalSequence, secure)
    }

    ghost predicate Valid()
      reads this, clients, connectTokenEntries
    {
      (clients as object) != connectTokenEntries && SR.Inv(Model())
    }

    constructor (
      currentTime: Time, maxClients: nat, protocolId: nat, publicAddresses: seq<Address>, connectKey: Key,
      challengeKey: Key, secure: bool)
      requires maxClients <= MAX_CLIENTS
      ensures Valid() && fresh(clients) && fresh(connectTokenEntries)
      ensures Model() == New(currentTime, maxClients, protocolId, publicAddresses, connectKey, challengeKey, secure)
    {
      clients := new Option<Connection>[maxClients](_ => None);
      pendingClients := map[];
      connectTokenEntries := new Option<TokenEntry>[TOKEN_ENTRIES](_ => None);
      this.protocolId := protocolId;
      this.connectKey := connectKey;
      this.maxClients := maxClients;
      challengeSequence := 0;
      this.challengeKey := challengeKey;
      this.publicAddresses := publicAddresses;
      this.currentTime := currentTime;
      globalSequence := 0;
      this.secure := secure;
      new;
      SR.NewInv(currentTime, maxClients, protocolId, publicAddresses, connectKey, challengeKey, secure);
      assert clients[..] == seq(maxClients, _ => None);
      assert connectTokenEntries[..] == seq(TOKEN_ENTRIES, _ => None);
    }

    /** `find_or_add_connect_token_entry`. */
    method FindOrAddConnectTokenEntry(newEntry: TokenEntry) returns (ok: bool)
      requires connectTokenEntries.Length == TOKEN_ENTRIES
      modifies connectTokenEntries
      ensures (ok, connectTokenEntries[..]) == FindOrAdd(old(connectTokenEntries[..]), newEntry)
    {
      var oldestEntry := 0;
      var emptyEntry := false;
      var min: Option<Time> := None; // `None` stands for the longest duration
      var matchingEntry: Option<TokenEntry> := None;
      ghost var entries := connectTokenEntries[..];
      for i := 0 to connectTokenEntries.Length
        invariant oldestEntry == Victim(entries, i) && matchingEntry == Matching(entries, newEntry.mac, i)
        invariant emptyEntry == (i > 0 && entries[oldestEntry].None?)
        invariant i > 0 && !emptyEntry ==> min == Some(entries[oldestEntry].value.time)
        invariant i == 0 ==> min.None?
      {
        var entry := connectTokenEntries[i];
        match entry {
          case Some(e) =>
            if e.mac == newEntry.mac {
              matchingEntry := entry;
            }
            if !emptyEntry && (min.None? || e.time < min.value) {
              oldestEntry := i;
              min := Some(e.time);
            }
          case None =>
            if !emptyEntry {
              emptyEntry := true;
              oldestEntry := i;
            }
        }
      }
      if matchingEntry.Some? {
        return matchingEntry.value.address == newEntry.address;
      }
      connectTokenEntries[oldestEntry] := Some(newEntry);
      return true;
    }

    /** `handle_connection_request`, for a request without an error. */
    method Admit(addr: Address, d: Datagram, token: PrivateToken) returns (result: ServerResult)
      requires d.Request?
      modifies this`pendingClients, this`globalSequence, this`challengeSequence
      ensures Outcome(Model(), result) == Spec.Admit(old(Model()), addr, d, token)
    {
      var connected := CountOccupied(clients);
      if connected >= maxClients {
        pendingClients := pendingClients - {addr};
        var denial := Seal(token.serverToClientKey, protocolId, globalSequence, ConnectionDenied);
        globalSequence := globalSequence + 1;
        return PacketToSend(addr, denial);
      }
      challengeSequence := challengeSequence + 1;
      var challenge :=
        Challenge(challengeSequence, SealedChallenge(challengeKey, challengeSequence, token.clientId, token.userData));
      var packet := Seal(token.serverToClientKey, protocolId, globalSequence, challenge);
      globalSequence := globalSequence + 1;
      var pending: Connection;
      if addr in pendingClients {
        pending := pendingClients[addr];
      } else {
        pending := Connection(false, token.clientId, PendingResponse, token.serverToClientKey, token.clientToServerKey,
                              token.userData, addr, currentTime, currentTime, token.timeoutSeconds, 0, d.expire, R.New());
      }
      pendingClients := pendingClients[addr := pending.(lastReceived := currentTime, lastSend := currentTime)];
      return PacketToSend(addr, packet);
    }

    method HandleConnectionRequest(addr: Address, d: Datagram) returns (result: ServerResult)
      requires Valid() && d.Request?
      modifies this`pendingClients, this`globalSequence, this`challengeSequence, connectTokenEntries
      ensures Valid() && Outcome(Model(), result) == HandleRequest(old(Model()), addr, d)
    {
      SR.HandleRequestInv(Model(), addr, d);
      hide SR.Inv, Spec.Admit, FindOrAdd, SlotById, SlotByAddr, InHostList;
      if !d.validVersion || d.protocolId != protocolId || Seconds(currentTime) >= d.expire {
        return NoResult;
      }
      var decoded := OpenToken(d.data, protocolId, d.expire, d.xnonce, connectKey);
      if decoded.None? {
        return NoResult;
      }
      var token := decoded.value;
      if secure && !InHostList(token, publicAddresses) {
        return NoResult;
      }
      var byAddr := FindSlotByAddr(clients, addr);
      var byId := FindSlotById(clients, token.clientId);
      if byId < clients.Length || byAddr < clients.Length {
        return NoResult;
      }
      if addr !in pendingClients && |pendingClients| >= MAX_PENDING_CLIENTS {
        return NoResult;
      }
      var ok := FindOrAddConnectTokenEntry(TokenEntry(currentTime, addr, d.data.mac));
      if !ok {
        return NoResult;
      }
      result := Admit(addr, d, token);
    }

    /** A packet from the client in slot `slot`. */
    method FromConnected(slot: nat, d: Datagram) returns (result: ServerResult)
      requires Valid() && slot < clients.Length && clients[slot].Some?
      modifies clients
      ensures Valid() && Outcome(Model(), result) == Spec.FromConnected(old(Model()), slot, d)
    {
      hide SR.Inv, R.Seen;
      SR.InvWf(Model());
      SR.FromConnectedInv(Model(), slot, d);
      var client := clients[slot].value;
      if d.Request? {
        clients[slot] := Some(client.(lastReceived := currentTime));
        return NoResult;
      }
      var decoded := Open(d, protocolId, client.receiveKey, client.window);
      if decoded.result == Err(DecodePanic) {
        return ServerPanic;
      }
      client := client.(window := decoded.window);
      if decoded.result.Err? {
        clients[slot] := Some(client);
        return NoResult;
      }
      client := client.(lastReceived := currentTime);
      if client.state.Connected? {
        match decoded.result.value {
          case Disconnect =>
            clients[slot] := None;
            return ClientDisconnected(client.clientId, client.addr, None);
          case Payload(bytes) =>
            clients[slot] := Some(client.(confirmed := true));
            return PayloadFrom(client.clientId, bytes);
          case KeepAlive(_, _) =>
            client := client.(confirmed := true);
          case _ =>
        }
      }
      clients[slot] := Some(client);
      return NoResult;
    }

    /** The pending client answered a challenge that was made for client `id`. */
    method Promote(addr: Address, id: nat, userData: UserData) returns (result: ServerResult)
      requires Valid() && addr in pendingClients
      modifies this`pendingClients, this`globalSequence, clients
      ensures Valid() && Outcome(Model(), result) == Spec.Promote(old(Model()), addr, id, userData)
    {
      hide SR.Inv, SlotById, FreeSlot;
      SR.PromoteInv(Model(), addr, id, userData);
      var pending := pendingClients[addr];
      pendingClients := pendingClients - {addr};
      var slot := FindSlotById(clients, id);
      if slot < clients.Length {
        return NoResult;
      }
      var clientIndex := FindFreeSlot(clients);
      if clientIndex == clients.Length {
        var denial := Seal(pending.sendKey, protocolId, globalSequence, ConnectionDenied);
        globalSequence := globalSequence + 1;
        return PacketToSend(addr, denial);
      }
      pending := pending.(state := Connected, userData := userData, lastSend := currentTime);
      var keepAlive := Seal(pending.sendKey, protocolId, pending.sequence, KeepAlive(clientIndex, maxClients));
      pending := pending.(sequence := pending.sequence + 1);
      clients[clientIndex] := Some(pending);
      return ClientConnected(pending.clientId, addr, userData, keepAlive);
    }

    method FromPending(addr: Address, d: Datagram) returns (result: ServerResult)
      requires Valid() && addr in pendingClients && SlotByAddr(clients[..], addr) == clients.Length
      modifies this`pendingClients, this`globalSequence, this`challengeSequence, connectTokenEntries, clients
      ensures Valid() && Outcome(Model(), result) == Spec.FromPending(old(Model()), addr, d)
    {
      SR.AddrFound(clients[..], addr);
      SR.FromPendingInv(Model(), addr, d);
      var pending := pendingClients[addr];
      assert WfConnection(pending) && pending.addr == addr && pending.state.PendingResponse?;
      hide SR.Inv, HandleRequest, Spec.Promote, R.Seen, SlotByAddr, SR.AddrAt;
      if d.Request? {
        SR.SetPendingInv(Model(), addr, pending.(lastReceived := currentTime));
        pendingClients := pendingClients[addr := pending.(lastReceived := currentTime)];
        result := HandleConnectionRequest(addr, d);
        return;
      }
      var decoded := Open(d, protocolId, pending.receiveKey, pending.window);
      if decoded.result == Err(DecodePanic) {
        return ServerPanic;
      }
      pending := pending.(window := decoded.window);
      if decoded.result.Err? {
        pendingClients := pendingClients[addr := pending];
        return NoResult;
      }
      pending := pending.(lastReceived := currentTime);
      SR.SetPendingInv(Model(), addr, pending);
      pendingClients := pendingClients[addr := pending];
      var body := decoded.result.value;
      if Answers(body, challengeKey) {
        result := Promote(addr, body.tokenData.clientId, body.tokenData.userData);
      } else {
        result := NoResult;
      }
    }

    method ProcessPacket(addr: Address, d: Datagram) returns (result: ServerResult)
      requires Valid()
      modifies this`pendingClients, this`globalSequence, this`challengeSequence, connectTokenEntries, clients
      ensures Valid() && Outcome(Model(), result) == Spec.ProcessPacket(old(Model()), addr, d)
    {
      SR.AddrFound(clients[..], addr);
      hide SR.Inv, HandleRequest, Spec.FromPending, Spec.FromConnected, SlotByAddr;
      if d.Malformed? {
        return NoResult;
      }
      var slot := FindSlotByAddr(clients, addr);
      if slot < clients.Length {
        result := FromConnected(slot, d);
      } else if addr in pendingClients {
        result := FromPending(addr, d);
      } else if d.Request? {
        result := HandleConnectionRequest(addr, d);
      } else {
        result := NoResult;
      }
    }

    method MarkExpired()
      modifies this`pendingClients
      ensures pendingClients.Keys == old(pendingClients).Keys
      ensures forall a :: a in pendingClients ==> pendingClients[a] == Marked(old(pendingClients)[a], currentTime)
    {
      ghost var before := pendingClients;
      var addrs := pendingClients.Keys;
      while addrs != {}
        invariant addrs <= pendingClients.Keys == before.Keys
        invariant forall a :: a in addrs ==> pendingClients[a] == before[a]
        invariant forall a :: a in before && a !in addrs ==> pendingClients[a] == Marked(before[a], currentTime)
        decreases |addrs|
      {
        var a :| a in addrs;
        if Seconds(currentTime) > pendingClients[a].expire {
          pendingClients := pendingClients[a := pendingClients[a].(state := Disconnected)];
        }
        addrs := addrs - {a};
      }
    }

    /** Pending clients whose token has expired are marked, then removed. */
    method Update(duration: Time)
      requires Valid()
      modifies this`currentTime, this`pendingClients
      ensures Valid() && Model() == Spec.Update(old(Model()), duration)
    {
      hide SR.Inv, Unexpired, Retained, Marked;
      SR.UpdateInv(Model(), duration);
      ghost var before := pendingClients;
      currentTime := currentTime + duration;
      MarkExpired();
      MarkThenRetain(before, pendingClients, currentTime);
      pendingClients := Retained(pendingClients);
    }

    method UpdateClient(id: nat) returns (result: ServerResult)
      requires Valid()
      modifies clients
      ensures Valid() && Outcome(Model(), result) == Spec.UpdateClient(old(Model()), id)
    {
      SR.CommandInv(Model(), SR.Poll(id));
      SR.IdFound(clients[..], id);
      hide SR.Inv, SlotById;
      var slot := FindSlotById(clients, id);
      if slot == clients.Length {
        return NoResult;
      }
      var client := clients[slot].value;
      if TimedOut(client, currentTime) {
        client := client.(state := Disconnected);
      }
      if client.state.Disconnected? {
        clients[slot] := None;
        var packet := Seal(client.sendKey, protocolId, client.sequence, Disconnect);
        return ClientDisconnected(client.clientId, client.addr, Some(packet));
      }
      if client.lastSend + SEND_RATE <= currentTime {
        var packet := Seal(client.sendKey, protocolId, client.sequence, KeepAlive(slot, maxClients));
        clients[slot] := Some(client.(sequence := client.sequence + 1, lastSend := currentTime));
        return PacketToSend(client.addr, packet);
      }
      return NoResult;
    }

    method DisconnectClient(id: nat) returns (result: ServerResult)
      requires Valid()
      modifies clients
      ensures Valid() && Outcome(Model(), result) == Spec.DisconnectClient(old(Model()), id)
    {
      SR.CommandInv(Model(), SR.Kick(id));
      SR.IdFound(clients[..], id);
      hide SR.Inv, SlotById;
      var slot := FindSlotById(clients, id);
      if slot == clients.Length {
        return NoResult;
      }
      var client := clients[slot].value;
      clients[slot] := None;
      var packet := Seal(client.sendKey, protocolId, client.sequence, Disconnect);
      return ClientDisconnected(client.clientId, client.addr, Some(packet));
    }

    method SetMaxClients(n: nat)
      requires Valid()
      modifies this`maxClients
      ensures Valid() && Model() == Spec.SetMaxClients(old(Model()), n)
    {
      maxClients := if n < MAX_CLIENTS then n else MAX_CLIENTS;
      SR.FieldsInv(old(Model()), Model());
    }

    method GeneratePayloadPacket(id: nat, payload: seq<byte>) returns (r: Result<(Address, Datagram), NetcodeError>)
      requires Valid()
      modifies clients
      ensures Valid() && (Model(), r) == GeneratePayload(old(Model()), id, payload)
    {
      SR.CommandInv(Model(), SR.Send(id, payload));
      SR.IdFound(clients[..], id);
      hide SR.Inv, SlotById;
      if |payload| > MAX_PAYLOAD_BYTES {
        return Err(PayloadAboveLimit);
      }
      var slot := FindSlotById(clients, id);
      if slot == clients.Length {
        return Err(ClientNotFound);
      }
      var client := clients[slot].value;
      var packet := Seal(client.sendKey, protocolId, client.sequence, Payload(payload));
      clients[slot] := Some(client.(sequence := client.sequence + 1, lastSend := currentTime));
      return Ok((client.addr, packet));
    }
  }
}
