/**
 Which connection requests a netcode server answers, and how (renetcode/src/server.rs,
 `handle_connection_request`).
 */
module ServerAdmission {
  import opened Common
  import opened NetcodePacket
  import opened NetcodeServer
  import opened ServerRuns
  import R = Replay

  /** The token in the request was sealed for this server, protocol, expiry and nonce, and has not expired. */
  ghost predicate ValidToken(s: Server, d: Datagram)
    requires d.Request?
  {
    && d.validVersion && d.protocolId == s.protocolId && s.now / 1_000_000_000 < d.expire
    && d.data.SealedToken? && d.data.key == s.connectKey && d.data.protocolId == s.protocolId
    && d.data.expire == d.expire && d.data.xnonce == d.xnonce
    && (s.secure ==> NamesServer(d.data.token, s.publicAddresses))
  }

  /** The token names one of the server's addresses. */
  ghost predicate NamesServer(token: PrivateToken, addresses: seq<Address>) {
    exists host :: Some(host) in token.serverAddresses && host in addresses
  }

  ghost predicate IdConnected(clients: Slots, id: nat) {
    exists i :: 0 <= i < |clients| && HasId(clients[i], id)
  }

  ghost predicate AddrConnected(clients: Slots, a: Address) {
    exists i :: AddrAt(clients, i, a)
  }

  /** The token is remembered under another address. */
  ghost predicate UsedElsewhere(entries: seq<Option<TokenEntry>>, mac: nat, a: Address) {
    exists i :: 0 <= i < |entries| && HasMac(entries[i], mac) && entries[i].value.address != a
  }

  /** A request from `a` that the server answers. */
  ghost predicate Acceptable(s: Server, a: Address, d: Datagram)
    requires d.Request?
  {
    && ValidToken(s, d)
    && !IdConnected(s.clients, d.data.token.clientId) && !AddrConnected(s.clients, a)
    && (a in s.pending || |s.pending| < 4096)
    && !UsedElsewhere(s.entries, d.data.mac, a)
  }

  ghost function OccupiedSlots(clients: Slots): set<nat> {
    set i | 0 <= i < |clients| && clients[i].Some?
  }

  /** As many clients are connected as the server allows. */
  ghost predicate Full(s: Server) {
    |OccupiedSlots(s.clients)| >= s.maxClients
  }

  lemma {:induction false} OccupiedIsCount(clients: Slots)
    ensures Occupied(clients) == |OccupiedSlots(clients)|
  {
    if clients != [] {
      var n := |clients| - 1;
      OccupiedIsCount(clients[..n]);
      if clients[n].Some? {
        assert OccupiedSlots(clients) == OccupiedSlots(clients[..n]) + {n};
      } else {
        assert OccupiedSlots(clients) == OccupiedSlots(clients[..n]);
      }
    }
  }

  lemma ValidIffNoError(s: Server, d: Datagram)
    requires d.Request?
    ensures RequestError(s, d).None? <==> ValidToken(s, d)
    ensures ValidToken(s, d) ==> OpenToken(d.data, s.protocolId, d.expire, d.xnonce, s.connectKey) == Some(d.data.token)
  {
    if d.data.SealedToken? {
      HostListIff(d.data.token, s.publicAddresses);
    }
  }

  lemma HostListIff(token: PrivateToken, addresses: seq<Address>)
    ensures InHostList(token, addresses) <==> NamesServer(token, addresses)
  {
    if host :| Some(host) in token.serverAddresses && host in addresses {
      var i :| 0 <= i < |token.serverAddresses| && token.serverAddresses[i] == Some(host);
    }
  }

  lemma LookupsIff(s: Server, a: Address, id: nat)
    ensures SlotById(s.clients, id) < |s.clients| <==> IdConnected(s.clients, id)
    ensures SlotByAddr(s.clients, a) < |s.clients| <==> AddrConnected(s.clients, a)
  {
    IdFound(s.clients, id);
    AddrFound(s.clients, a);
  }

  /**
   Token `e` is remembered: it was already, or it takes the place of a free entry or else of
   one of the oldest.
   */
  ghost predicate Remembers(before: seq<Option<TokenEntry>>, after: seq<Option<TokenEntry>>, e: TokenEntry) {
    if Known(before, e.mac) then after == before
    else exists v :: 0 <= v < |before| && GivesWay(before, v) && after == before[v := Some(e)]
  }

  ghost predicate Known(entries: seq<Option<TokenEntry>>, mac: nat) {
    exists i :: 0 <= i < |entries| && HasMac(entries[i], mac)
  }

  ghost predicate GivesWay(entries: seq<Option<TokenEntry>>, v: nat)
    requires v < |entries|
  {
    entries[v].None? ||
    forall i :: 0 <= i < |entries| ==> entries[i].Some? && entries[v].value.time <= entries[i].value.time
  }

  lemma FindOrAddRemembers(entries: seq<Option<TokenEntry>>, e: TokenEntry)
    requires |entries| > 0 && DistinctMacs(entries)
    ensures FindOrAdd(entries, e).0 <==> !UsedElsewhere(entries, e.mac, e.address)
    ensures FindOrAdd(entries, e).0 ==> Remembers(entries, FindOrAdd(entries, e).1, e)
  {
    FindOrAddSpec(entries, e);
    MatchingIs(entries, e.mac, |entries|);
    VictimIsOldest(entries, |entries|);
    if FindOrAdd(entries, e).0 && !Known(entries, e.mac) {
      assert GivesWay(entries, Victim(entries, |entries|));
    }
  }

  /** The pending client after a request that is challenged. */
  ghost function Challenged(s: Server, a: Address, d: Datagram): Connection
    requires d.Request? && d.data.SealedToken?
  {
    var t := d.data.token;
    if a in s.pending then s.pending[a].(lastReceived := s.now, lastSend := s.now)
    else Connection(false, t.clientId, PendingResponse, t.serverToClientKey, t.clientToServerKey, t.userData, a, s.now, s.now,
                    t.timeoutSeconds, 0, d.expire, R.New())
  }

  lemma EntriesOf(s: Server)
    requires Inv(s)
    ensures |s.entries| > 0 && DistinctMacs(s.entries)
  {
  }

  lemma RequestGate(s: Server, a: Address, d: Datagram)
    requires |s.entries| > 0 && DistinctMacs(s.entries) && d.Request?
    ensures !Acceptable(s, a, d) ==> HandleRequest(s, a, d) == Outcome(s, NoResult)
    ensures Acceptable(s, a, d) ==>
      var entries := FindOrAdd(s.entries, TokenEntry(s.now, a, d.data.mac)).1;
      && Remembers(s.entries, entries, TokenEntry(s.now, a, d.data.mac))
      && d.data.SealedToken? && HandleRequest(s, a, d) == Admit(s.(entries := entries), a, d, d.data.token)
  {
    hide RequestError, OpenToken, SlotById, SlotByAddr, FindOrAdd, ValidToken, IdConnected, AddrConnected, UsedElsewhere,
      Remembers, DistinctMacs, Admit;
    ValidIffNoError(s, d);
    if ValidToken(s, d) {
      TokenIsSealed(s, d);
      LookupsIff(s, a, d.data.token.clientId);
      FindOrAddRemembers(s.entries, TokenEntry(s.now, a, d.data.mac));
    }
  }

  /** The answer to a request from `a` with token `t`. */
  ghost function Answer(s: Server, a: Address, t: PrivateToken): ServerResult {
    var n := s.challengeSequence + 1;
    var body := if Full(s) then ConnectionDenied else Challenge(n, SealedChallenge(s.challengeKey, n, t.clientId, t.userData));
    PacketToSend(a, Seal(t.serverToClientKey, s.protocolId, s.globalSequence, body))
  }

  /** The server after it, apart from the remembered tokens. */
  ghost function Answered(s: Server, a: Address, d: Datagram): Server
    requires d.Request? && d.data.SealedToken?
  {
    if Full(s) then s.(pending := s.pending - {a}, globalSequence := s.globalSequence + 1)
    else s.(pending := s.pending[a := Challenged(s, a, d)], challengeSequence := s.challengeSequence + 1,
            globalSequence := s.globalSequence + 1)
  }

  lemma AdmitAnswers(s: Server, a: Address, d: Datagram)
    requires d.Request? && d.data.SealedToken?
    ensures Admit(s, a, d, d.data.token) == Outcome(Answered(s, a, d), Answer(s, a, d.data.token))
  {
    hide Occupied, OccupiedSlots, R.New;
    OccupiedIsCount(s.clients);
  }

  /**
   A request is answered exactly if it is acceptable, and otherwise changes nothing. The
   answer is a denial exactly if the server is full; else the client at this address is
   pending and gets a challenge made for the token's client, with a new number.
   */
  lemma RequestIsAnsweredIff(s: Server, a: Address, d: Datagram)
    requires Inv(s) && d.Request?
    ensures |s.entries| > 0
    ensures !Acceptable(s, a, d) <==> HandleRequest(s, a, d) == Outcome(s, NoResult)
    ensures Acceptable(s, a, d) ==>
      var o := HandleRequest(s, a, d);
      && d.data.SealedToken? && o.result == Answer(s, a, d.data.token)
      && o.server == Answered(s, a, d).(entries := o.server.entries)
      && Remembers(s.entries, o.server.entries, TokenEntry(s.now, a, d.data.mac))
  {
    hide Inv, HandleRequest, Admit, Acceptable, Remembers, FindOrAdd, DistinctMacs, R.New, OccupiedSlots;
    EntriesOf(s);
    RequestGate(s, a, d);
    if Acceptable(s, a, d) {
      AdmitAnswers(s.(entries := FindOrAdd(s.entries, TokenEntry(s.now, a, d.data.mac)).1), a, d);
    }
  }

  /**
   Whatever the state of the address: a request that arrives is answered exactly if it is
   acceptable. One that is not leaves everything but the time last heard from the address.
   */
  lemma ArrivingRequestIff(s: Server, a: Address, d: Datagram)
    requires Inv(s) && Wf(s) && d.Request?
    ensures ProcessPacket(s, a, d).result.PacketToSend? <==> Acceptable(s, a, d)
    ensures !Acceptable(s, a, d) ==>
      var o := ProcessPacket(s, a, d);
      && o.result == NoResult
      && o.server == s.(clients := o.server.clients, pending := o.server.pending)
      && |o.server.clients| == |s.clients| && o.server.pending.Keys == s.pending.Keys
  {
    hide Inv, HandleRequest, Remembers, ValidToken, IdConnected, UsedElsewhere, SlotByAddr, AddrConnected, OccupiedSlots, R.New;
    LookupsIff(s, a, 0);
    AddrFound(s.clients, a);
    if SlotByAddr(s.clients, a) == |s.clients| {
      if a in s.pending {
        var p := s.pending[a].(lastReceived := s.now);
        var s1 := s.(pending := s.pending[a := p]);
        PendingRefreshed(s, a);
        assert Acceptable(s1, a, d) <==> Acceptable(s, a, d) by { SameGate(s, s1, a, d); }
        RequestIsAnsweredIff(s1, a, d);
      } else {
        RequestIsAnsweredIff(s, a, d);
      }
    }
  }

  lemma PendingRefreshed(s: Server, a: Address)
    requires Inv(s) && a in s.pending && SlotByAddr(s.clients, a) == |s.clients|
    ensures Inv(s.(pending := s.pending[a := s.pending[a].(lastReceived := s.now)]))
  {
    AddrFound(s.clients, a);
    SetPendingInv(s, a, s.pending[a].(lastReceived := s.now));
  }

  lemma SameGate(s: Server, s1: Server, a: Address, d: Datagram)
    requires d.Request? && a in s.pending && s1 == s.(pending := s1.pending) && a in s1.pending
    ensures Acceptable(s1, a, d) <==> Acceptable(s, a, d)
  {
    hide IdConnected, UsedElsewhere, AddrConnected, NamesServer;
  }

  lemma TokenIsSealed(s: Server, d: Datagram)
    requires d.Request? && ValidToken(s, d)
    ensures d.data.SealedToken?
  {
  }
}
