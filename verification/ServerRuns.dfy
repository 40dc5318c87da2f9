/** What every run of a netcode server keeps (renetcode/src/server.rs). */
module ServerRuns {
  import opened Common
  import opened NetcodePacket
  import opened NetcodeServer
  import R = Replay

  type Slots = seq<Option<Connection>>

  // ---------------------------------------------------------------- the invariant

  ghost predicate AllConnected(clients: Slots) {
    forall i :: 0 <= i < |clients| && clients[i].Some? ==> clients[i].value.state.Connected?
  }

  ghost predicate AddrAt(clients: Slots, i: nat, a: Address) {
    i < |clients| && HasAddr(clients[i], a)
  }

  ghost predicate DistinctAddrs(clients: Slots) {
    forall i, j, a :: AddrAt(clients, i, a) && AddrAt(clients, j, a) ==> i == j
  }

  ghost predicate PendingOk(pending: map<Address, Connection>) {
    forall a :: a in pending ==> pending[a].addr == a && pending[a].state.PendingResponse?
  }

  ghost predicate Separate(clients: Slots, pending: map<Address, Connection>) {
    forall i, a :: AddrAt(clients, i, a) ==> a !in pending
  }

  /** A connect token is remembered under one address only. */
  ghost predicate DistinctMacs(entries: seq<Option<TokenEntry>>) {
    forall i, j, m :: 0 <= i < |entries| && 0 <= j < |entries| && HasMac(entries[i], m) && HasMac(entries[j], m) ==> i == j
  }

  ghost predicate Inv(s: Server) {
    && Wf(s)
    && AllConnected(s.clients) && DistinctAddrs(s.clients)
    && PendingOk(s.pending) && Separate(s.clients, s.pending)
    && |s.pending| <= MAX_PENDING_CLIENTS
    && DistinctMacs(s.entries)
  }

  lemma NewInv(
    now: Time, maxClients: nat, protocolId: nat, addresses: seq<Address>, connectKey: Key, challengeKey: Key, secure: bool)
    ensures Inv(New(now, maxClients, protocolId, addresses, connectKey, challengeKey, secure))
  {
  }

  // ---------------------------------------------------------------- slots

  lemma AddrFound(clients: Slots, a: Address)
    ensures SlotByAddr(clients, a) == |clients| ==> forall i :: !AddrAt(clients, i, a)
    ensures SlotByAddr(clients, a) < |clients| ==> AddrAt(clients, SlotByAddr(clients, a), a)
  {
  }

  /** What replacing a connected client by itself with other timers, or removing it, keeps. */
  lemma SetSlotInv(s: Server, i: nat, c: Option<Connection>)
    requires Inv(s) && i < |s.clients| && s.clients[i].Some?
    requires c.Some? ==> c.value.addr == s.clients[i].value.addr && c.value.state.Connected? && WfConnection(c.value)
    ensures Inv(s.(clients := s.clients[i := c]))
  {
    hide WfConnection, DistinctMacs, PendingOk;
    var clients := s.clients[i := c];
    forall j, k, a | AddrAt(clients, j, a) && AddrAt(clients, k, a)
      ensures j == k
    {
      assert AddrAt(s.clients, j, a) && AddrAt(s.clients, k, a);
    }
    forall j, a | AddrAt(clients, j, a)
      ensures a !in s.pending
    {
      assert AddrAt(s.clients, j, a);
    }
  }

  /** A pending client takes a free slot. */
  lemma TakeSlotInv(s: Server, i: nat, c: Connection)
    requires Inv(s) && i < |s.clients| && s.clients[i].None?
    requires c.addr in s.pending && c.state.Connected? && WfConnection(c)
    ensures Inv(s.(clients := s.clients[i := Some(c)], pending := s.pending - {c.addr}))
  {
    hide WfConnection, DistinctMacs;
    var clients := s.clients[i := Some(c)];
    forall j, k, a | AddrAt(clients, j, a) && AddrAt(clients, k, a)
      ensures j == k
    {
      assert j != i ==> AddrAt(s.clients, j, a);
      assert k != i ==> AddrAt(s.clients, k, a);
    }
    forall j, a | AddrAt(clients, j, a)
      ensures a !in s.pending - {c.addr}
    {
      assert j != i ==> AddrAt(s.clients, j, a);
    }
    Smaller(s.pending, c.addr);
  }

  lemma Smaller(m: map<Address, Connection>, a: Address)
    ensures |m - {a}| <= |m|
  {
    assert (m - {a}).Keys == m.Keys - {a};
    assert |(m - {a}).Keys| <= |m.Keys|;
  }

  /** A pending client is replaced by itself with other timers, or added below the limit. */
  lemma SetPendingInv(s: Server, a: Address, p: Connection)
    requires Inv(s) && p.addr == a && p.state.PendingResponse? && WfConnection(p)
    requires forall i :: !AddrAt(s.clients, i, a)
    requires a in s.pending || |s.pending| < MAX_PENDING_CLIENTS
    ensures Inv(s.(pending := s.pending[a := p]))
  {
    hide WfConnection, DistinctMacs, AddrAt, DistinctAddrs;
    assert s.pending[a := p].Keys == s.pending.Keys + {a};
  }

  lemma DropPendingInv(s: Server, a: Address)
    requires Inv(s)
    ensures Inv(s.(pending := s.pending - {a}))
  {
    hide WfConnection, DistinctMacs, DistinctAddrs;
    Smaller(s.pending, a);
  }

  // ---------------------------------------------------------------- connect token entries

  lemma {:induction false} MatchingIs(entries: seq<Option<TokenEntry>>, mac: nat, k: nat)
    requires k <= |entries|
    ensures Matching(entries, mac, k).None? <==> forall i :: 0 <= i < k ==> !HasMac(entries[i], mac)
    ensures Matching(entries, mac, k).Some? ==>
      exists i :: 0 <= i < k && HasMac(entries[i], mac) && entries[i] == Matching(entries, mac, k)
  {
    if k > 0 {
      MatchingIs(entries, mac, k - 1);
    }
  }

  /** The entry that gives way is free, or there is no free one and none is older. */
  lemma {:induction false} VictimIsOldest(entries: seq<Option<TokenEntry>>, k: nat)
    requires 0 < k <= |entries|
    ensures var v := Victim(entries, k);
      entries[v].None? || forall i :: 0 <= i < k ==> entries[i].Some? && entries[v].value.time <= entries[i].value.time
  {
    if k > 1 {
      VictimIsOldest(entries, k - 1);
    }
  }

  /**
   A token is admitted from an address unless it is remembered under another one, and is
   remembered under that address afterwards.
   */
  lemma FindOrAddSpec(entries: seq<Option<TokenEntry>>, e: TokenEntry)
    requires |entries| > 0 && DistinctMacs(entries)
    ensures var (ok, after) := FindOrAdd(entries, e);
      && |after| == |entries| && DistinctMacs(after)
      && (ok <==> forall i :: 0 <= i < |entries| && HasMac(entries[i], e.mac) ==> entries[i].value.address == e.address)
      && (ok ==> exists i :: 0 <= i < |after| && HasMac(after[i], e.mac) && after[i].value.address == e.address)
      && (!ok ==> after == entries)
  {
    MatchingIs(entries, e.mac, |entries|);
    var (ok, after) := FindOrAdd(entries, e);
    var m := Matching(entries, e.mac, |entries|);
    if m.Some? {
      var i :| 0 <= i < |entries| && HasMac(entries[i], e.mac) && entries[i] == m;
      assert forall j :: 0 <= j < |entries| && HasMac(entries[j], e.mac) ==> j == i;
    } else {
      var v := Victim(entries, |entries|);
      assert HasMac(after[v], e.mac);
      forall i, j, mac | 0 <= i < |after| && 0 <= j < |after| && HasMac(after[i], mac) && HasMac(after[j], mac)
        ensures i == j
      {
        assert i != v ==> after[i] == entries[i];
        assert j != v ==> after[j] == entries[j];
      }
    }
  }

  lemma SetEntriesInv(s: Server, entries: seq<Option<TokenEntry>>)
    requires Inv(s) && |entries| == TOKEN_ENTRIES && DistinctMacs(entries)
    ensures Inv(s.(entries := entries))
  {
    hide DistinctMacs, DistinctAddrs, Separate, PendingOk, AllConnected, WfConnection;
  }

  // ---------------------------------------------------------------- steps

  /** Everything that can happen to a server. */
  datatype Event =
    | Arrival(addr: Address, datagram: Datagram)
    | Elapse(duration: Time)
    | Poll(clientId: nat)
    | Kick(clientId: nat)
    | Limit(maxClients: nat)
    | Send(clientId: nat, payload: seq<byte>)

  ghost function Step(s: Server, e: Event): Outcome
    requires Wf(s)
  {
    match e
    case Arrival(a, d) => ProcessPacket(s, a, d)
    case Elapse(t) => Outcome(Update(s, t), NoResult)
    case Poll(id) => UpdateClient(s, id)
    case Kick(id) => DisconnectClient(s, id)
    case Limit(n) => Outcome(SetMaxClients(s, n), NoResult)
    case Send(id, p) => Outcome(GeneratePayload(s, id, p).0, NoResult)
  }

  lemma FieldsInv(s: Server, s': Server)
    requires Inv(s) && s'.clients == s.clients && s'.pending == s.pending && s'.entries == s.entries
    ensures Inv(s')
  {
    hide DistinctMacs, DistinctAddrs, Separate, PendingOk, AllConnected, WfConnection;
  }

  lemma AdmitInv(s: Server, a: Address, d: Datagram, t: PrivateToken)
    requires Inv(s) && d.Request? && (forall i :: !AddrAt(s.clients, i, a))
    requires a in s.pending || |s.pending| < MAX_PENDING_CLIENTS
    ensures Inv(Admit(s, a, d, t).server)
  {
    var s' := Admit(s, a, d, t).server;
    if Occupied(s.clients) >= s.maxClients {
      DropPendingInv(s, a);
      hide Inv;
      FieldsInv(s.(pending := s'.pending), s');
    } else {
      assert R.Wf(R.New());
      SetPendingInv(s, a, s'.pending[a]);
      hide Inv;
      FieldsInv(s.(pending := s'.pending), s');
    }
  }

  lemma HandleRequestInv(s: Server, a: Address, d: Datagram)
    requires Inv(s) && d.Request?
    ensures Inv(HandleRequest(s, a, d).server)
  {
    hide DistinctMacs, DistinctAddrs, Separate, PendingOk, AllConnected, WfConnection, Admit, FindOrAdd, SlotByAddr, SlotById,
      AddrAt;
    AddrFound(s.clients, a);
    if RequestError(s, d).None? {
      var e := TokenEntry(s.now, a, d.data.mac);
      FindOrAddSpec(s.entries, e);
      SetEntriesInv(s, FindOrAdd(s.entries, e).1);
      var t := OpenToken(d.data, s.protocolId, d.expire, d.xnonce, s.connectKey).value;
      if SlotByAddr(s.clients, a) == |s.clients| && (a in s.pending || |s.pending| < MAX_PENDING_CLIENTS) {
        AdmitInv(s.(entries := FindOrAdd(s.entries, e).1), a, d, t);
      }
    }
  }

  lemma FromConnectedInv(s: Server, i: nat, d: Datagram)
    requires Inv(s) && i < |s.clients| && s.clients[i].Some?
    ensures Inv(FromConnected(s, i, d).server)
  {
    assert s.clients[i].value.state.Connected? && WfConnection(s.clients[i].value);
    hide Inv, R.Seen;
    SetSlotInv(s, i, FromConnected(s, i, d).server.clients[i]);
    assert s.clients[i := s.clients[i]] == s.clients;
  }

  lemma PromoteInv(s: Server, a: Address, id: nat, userData: UserData)
    requires Inv(s) && a in s.pending
    ensures Inv(Promote(s, a, id, userData).server)
  {
    var s' := Promote(s, a, id, userData).server;
    DropPendingInv(s, a);
    var i := FreeSlot(s.clients);
    if i < |s.clients| && s'.clients != s.clients {
      assert WfConnection(s.pending[a]) && s.pending[a].addr == a;
      hide Inv;
      TakeSlotInv(s, i, s'.clients[i].value);
      FieldsInv(s.(clients := s'.clients, pending := s'.pending), s');
    } else {
      hide Inv;
      FieldsInv(s.(pending := s'.pending), s');
    }
  }

  lemma FromPendingInv(s: Server, a: Address, d: Datagram)
    requires Inv(s) && a in s.pending && (forall i :: !AddrAt(s.clients, i, a))
    ensures Inv(FromPending(s, a, d).server)
  {
    var p := s.pending[a];
    assert WfConnection(p) && p.addr == a && p.state.PendingResponse?;
    hide Inv, Promote, HandleRequest, R.Seen, AddrAt;
    if d.Request? {
      SetPendingInv(s, a, p.(lastReceived := s.now));
      HandleRequestInv(s.(pending := s.pending[a := p.(lastReceived := s.now)]), a, d);
    } else {
      var o := Open(d, s.protocolId, p.receiveKey, p.window);
      SetPendingInv(s, a, p.(window := o.window));
      var p' := p.(window := o.window, lastReceived := s.now);
      SetPendingInv(s, a, p');
      if o.result.Ok? && Answers(o.result.value, s.challengeKey) {
        PromoteInv(s.(pending := s.pending[a := p']), a, o.result.value.tokenData.clientId, o.result.value.tokenData.userData);
      }
    }
  }

  lemma ProcessPacketInv(s: Server, a: Address, d: Datagram)
    requires Inv(s)
    ensures Inv(ProcessPacket(s, a, d).server)
  {
    AddrFound(s.clients, a);
    hide Inv, FromConnected, FromPending, HandleRequest, SlotByAddr;
    assert Wf(s) by { InvWf(s); }
    var i := SlotByAddr(s.clients, a);
    if d.Malformed? {
    } else if i < |s.clients| {
      FromConnectedInv(s, i, d);
    } else if a in s.pending {
      FromPendingInv(s, a, d);
    } else if d.Request? {
      HandleRequestInv(s, a, d);
    }
  }

  lemma InvWf(s: Server)
    requires Inv(s)
    ensures Wf(s)
  {
  }

  lemma UpdateInv(s: Server, t: Time)
    requires Inv(s)
    ensures Inv(Update(s, t))
  {
    hide DistinctMacs, DistinctAddrs, WfConnection;
    var s' := Update(s, t);
    assert s'.pending.Keys <= s.pending.Keys;
    SubsetSize(s'.pending.Keys, s.pending.Keys);
    assert |s'.pending| == |s'.pending.Keys|;
  }

  lemma {:induction false} SubsetSize(a: set<Address>, b: set<Address>)
    requires a <= b
    ensures |a| <= |b|
  {
    if a != {} {
      var x :| x in a;
      SubsetSize(a - {x}, b - {x});
    }
  }

  lemma CommandInv(s: Server, e: Event)
    requires Inv(s) && (e.Poll? || e.Kick? || e.Send?)
    ensures Inv(Step(s, e).server)
  {
    var i := SlotById(s.clients, e.clientId);
    if i < |s.clients| {
      assert s.clients[i].value.state.Connected? && WfConnection(s.clients[i].value);
      hide Inv;
      SetSlotInv(s, i, Step(s, e).server.clients[i]);
      assert s.clients[i := s.clients[i]] == s.clients;
    }
  }

  /** Every step keeps the invariant. */
  lemma StepInv(s: Server, e: Event)
    requires Inv(s)
    ensures Inv(Step(s, e).server)
  {
    hide Inv;
    match e {
      case Arrival(a, d) => ProcessPacketInv(s, a, d);
      case Elapse(t) => UpdateInv(s, t);
      case Limit(n) => FieldsInv(s, SetMaxClients(s, n));
      case _ => CommandInv(s, e);
    }
  }

  // ---------------------------------------------------------------- connects and disconnects

  /** In how many slots client `id` is connected. */
  ghost function CountId(clients: Slots, id: nat): nat {
    if clients == [] then 0
    else CountId(clients[..|clients| - 1], id) + if HasId(clients[|clients| - 1], id) then 1 else 0
  }

  ghost predicate DistinctIds(clients: Slots) {
    forall id :: CountId(clients, id) <= 1
  }

  lemma {:induction false} CountSet(clients: Slots, i: nat, c: Option<Connection>, id: nat)
    requires i < |clients|
    ensures CountId(clients[i := c], id) ==
            CountId(clients, id) - (if HasId(clients[i], id) then 1 else 0) + (if HasId(c, id) then 1 else 0)
  {
    var n := |clients| - 1;
    if i < n {
      CountSet(clients[..n], i, c, id);
      assert clients[i := c][..n] == clients[..n][i := c];
    } else {
      assert clients[i := c][..n] == clients[..n];
    }
  }

  lemma {:induction false} CountFound(clients: Slots, id: nat)
    ensures CountId(clients, id) == 0 <==> SlotById(clients, id) == |clients|
  {
    hide HasId;
    if SlotById(clients, id) < |clients| {
      CountAtLeast(clients, SlotById(clients, id), id) by { IdFound(clients, id); }
    } else {
      CountNone(clients, id) by { IdFound(clients, id); }
    }
  }

  lemma IdFound(clients: Slots, id: nat)
    ensures var k := SlotById(clients, id);
      if k < |clients| then HasId(clients[k], id) else forall i :: 0 <= i < |clients| ==> !HasId(clients[i], id)
  {
  }

  lemma {:induction false} CountAtLeast(clients: Slots, i: nat, id: nat)
    requires i < |clients| && HasId(clients[i], id)
    ensures CountId(clients, id) >= 1
  {
    if i < |clients| - 1 {
      CountAtLeast(clients[..|clients| - 1], i, id);
    }
  }

  lemma {:induction false} CountNone(clients: Slots, id: nat)
    requires forall i :: 0 <= i < |clients| ==> !HasId(clients[i], id)
    ensures CountId(clients, id) == 0
  {
    if clients != [] {
      CountNone(clients[..|clients| - 1], id);
    }
  }

  /** The change in the number of connections of `id` that a result reports. */
  ghost function Reported(r: ServerResult, id: nat): int {
    match r
    case ClientConnected(k, _, _, _) => if k == id then 1 else 0
    case ClientDisconnected(k, _, _) => if k == id then -1 else 0
    case _ => 0
  }

  ghost predicate Accounts(before: Slots, o: Outcome, id: nat) {
    CountId(o.server.clients, id) == CountId(before, id) + Reported(o.result, id)
  }

  lemma FromConnectedAccounts(s: Server, i: nat, d: Datagram, id: nat)
    requires Wf(s) && i < |s.clients| && s.clients[i].Some?
    ensures Accounts(s.clients, FromConnected(s, i, d), id)
  {
    hide R.Seen, CountId;
    CountSet(s.clients, i, FromConnected(s, i, d).server.clients[i], id);
    assert s.clients[i := s.clients[i]] == s.clients;
  }

  lemma RequestAccounts(s: Server, a: Address, d: Datagram, id: nat)
    requires d.Request? && |s.entries| > 0
    ensures Accounts(s.clients, HandleRequest(s, a, d), id)
    ensures HandleRequest(s, a, d).server.clients == s.clients
  {
    hide CountId, SlotById, SlotByAddr, FindOrAdd;
  }

  lemma PromoteAccounts(s: Server, a: Address, k: nat, userData: UserData, id: nat)
    requires a in s.pending
    ensures Accounts(s.clients, Promote(s, a, k, userData), id)
  {
    hide CountId;
    var i := FreeSlot(s.clients);
    if i < |s.clients| {
      CountSet(s.clients, i, Promote(s, a, k, userData).server.clients[i], id);
    }
  }

  lemma PacketAccounts(s: Server, a: Address, d: Datagram, id: nat)
    requires Inv(s)
    ensures Accounts(s.clients, ProcessPacket(s, a, d), id)
  {
    InvWf(s);
    hide Inv, FromConnected, HandleRequest, Promote, CountId, R.Seen;
    var i := SlotByAddr(s.clients, a);
    if d.Malformed? {
    } else if i < |s.clients| {
      FromConnectedAccounts(s, i, d, id);
    } else if a in s.pending {
      PendingAccounts(s, a, d, id);
    } else if d.Request? {
      RequestAccounts(s, a, d, id);
    }
  }

  lemma PendingAccounts(s: Server, a: Address, d: Datagram, id: nat)
    requires Wf(s) && a in s.pending
    ensures Accounts(s.clients, FromPending(s, a, d), id)
  {
    hide HandleRequest, Promote, CountId, R.Seen;
    var p := s.pending[a];
    if d.Request? {
      RequestAccounts(s.(pending := s.pending[a := p.(lastReceived := s.now)]), a, d, id);
    } else {
      var o := Open(d, s.protocolId, p.receiveKey, p.window);
      if o.result.Ok? && Answers(o.result.value, s.challengeKey) {
        var s' := s.(pending := s.pending[a := p.(window := o.window, lastReceived := s.now)]);
        PromoteAccounts(s', a, o.result.value.tokenData.clientId, o.result.value.tokenData.userData, id);
      }
    }
  }

  /** Each step changes the connections of each client exactly as its result reports. */
  lemma StepAccounts(s: Server, e: Event, id: nat)
    requires Inv(s)
    ensures Accounts(s.clients, Step(s, e), id)
  {
    hide Inv, ProcessPacket, CountId;
    if e.Arrival? {
      PacketAccounts(s, e.addr, e.datagram, id);
    } else if e.Poll? || e.Kick? || e.Send? {
      CommandAccounts(s, e, id) by { InvWf(s); }
    }
  }

  lemma CommandAccounts(s: Server, e: Event, id: nat)
    requires Wf(s) && (e.Poll? || e.Kick? || e.Send?)
    ensures Accounts(s.clients, Step(s, e), id)
  {
    hide CountId, Wf;
    var i := SlotById(s.clients, e.clientId);
    if i < |s.clients| {
      CountSet(s.clients, i, Step(s, e).server.clients[i], id);
      assert s.clients[i := s.clients[i]] == s.clients;
    }
  }

  // ---------------------------------------------------------------- runs

  ghost predicate IsStart(s: Server) {
    |s.clients| <= MAX_CLIENTS &&
    s == New(s.now, |s.clients|, s.protocolId, s.publicAddresses, s.connectKey, s.challengeKey, s.secure)
  }

  /** The server after the events, and the results of all of them; after a panic nothing happens any more. */
  datatype History = History(server: Server, results: seq<ServerResult>)

  ghost function After(start: Server, events: seq<Event>): (h: History)
    requires Inv(start)
    ensures Inv(h.server) && Wf(h.server) && |h.results| == |events|
  {
    if events == [] then History(start, [])
    else
      var h := After(start, events[..|events| - 1]);
      Next(h, events[|events| - 1])
  }

  ghost predicate Down(h: History) {
    ServerPanic in h.results
  }

  ghost function Next(h: History, e: Event): (h': History)
    requires Inv(h.server)
    ensures Inv(h'.server) && Wf(h'.server) && |h'.results| == |h.results| + 1
  {
    if Down(h) then History(h.server, h.results + [NoResult])
    else
      var o := Step(h.server, e);
      StepInv(h.server, e);
      History(o.server, h.results + [o.result])
  }

  lemma StartInv(s: Server)
    requires IsStart(s)
    ensures Inv(s) && forall id :: CountId(s.clients, id) == 0
  {
    hide Inv, CountId;
    NewInv(s.now, |s.clients|, s.protocolId, s.publicAddresses, s.connectKey, s.challengeKey, s.secure);
    forall id
      ensures CountId(s.clients, id) == 0
    {
      CountNone(s.clients, id);
    }
  }

  /** Connects minus disconnects reported for `id`. */
  ghost function Balance(results: seq<ServerResult>, id: nat): int {
    if results == [] then 0 else Balance(results[..|results| - 1], id) + Reported(results[|results| - 1], id)
  }

  /** In every run, a client's reported connects exceed its disconnects by the slots it occupies. */
  lemma {:induction false} BalanceIsCount(start: Server, events: seq<Event>, id: nat)
    requires IsStart(start) && Inv(start)
    ensures Balance(After(start, events).results, id) == CountId(After(start, events).server.clients, id)
  {
    hide Inv, Step, CountId, IsStart;
    if events == [] {
      StartInv(start);
    } else {
      var n := |events| - 1;
      BalanceIsCount(start, events[..n], id);
      var h := After(start, events[..n]);
      StepAccounts(h.server, events[n], id);
      var h' := After(start, events);
      assert h'.results[..n] == h.results;
    }
  }

  // ---------------------------------------------------------------- one slot per client

  /** The pending client at `a` answers a challenge with `d` and would take a free slot. */
  ghost predicate Promotes(s: Server, a: Address, d: Datagram)
    requires Wf(s)
  {
    && SlotByAddr(s.clients, a) == |s.clients| && a in s.pending && !d.Request?
    && var o := Open(d, s.protocolId, s.pending[a].receiveKey, s.pending[a].window);
      && o.result.Ok? && Answers(o.result.value, s.challengeKey)
      && SlotById(s.clients, o.result.value.tokenData.clientId) == |s.clients|
      && FreeSlot(s.clients) < |s.clients|
  }

  lemma ConnectsIffPromotes(s: Server, a: Address, d: Datagram)
    requires Inv(s)
    ensures ProcessPacket(s, a, d).result.ClientConnected? <==> Promotes(s, a, d)
    ensures Promotes(s, a, d) ==> ProcessPacket(s, a, d).result.clientId == s.pending[a].clientId
  {
    hide R.Seen, SlotByAddr, SlotById, FreeSlot, FindOrAdd, RequestError;
  }

  /**
   A step from a server on which every client has one slot leads to such a server, except
   exactly when a pending client whose own id is already connected is promoted.
   */
  lemma OneSlotPerClientIff(s: Server, e: Event)
    requires Inv(s) && DistinctIds(s.clients)
    ensures DistinctIds(Step(s, e).server.clients) <==>
      !(e.Arrival? && Promotes(s, e.addr, e.datagram) &&
        SlotById(s.clients, s.pending[e.addr].clientId) < |s.clients|)
  {
    var o := Step(s, e);
    hide Inv, Promotes, ProcessPacket, SlotById, CountId;
    if e.Arrival? {
      ConnectsIffPromotes(s, e.addr, e.datagram);
    }
    forall id
      ensures CountId(o.server.clients, id) == CountId(s.clients, id) + Reported(o.result, id)
    {
      StepAccounts(s, e, id);
    }
    if o.result.ClientConnected? {
      CountFound(s.clients, o.result.clientId);
      assert CountId(o.server.clients, o.result.clientId) == CountId(s.clients, o.result.clientId) + 1;
    }
  }

  /** The challenge that `d` answers was made for the client that is pending at `a`. */
  ghost predicate ChallengeMatches(s: Server, e: Event)
    requires Wf(s)
  {
    e.Arrival? && Promotes(s, e.addr, e.datagram) ==>
      e.datagram.body.tokenData.clientId == s.pending[e.addr].clientId
  }

  /** Every challenge answered in the run was made for the client that answers it. */
  ghost predicate AllMatch(start: Server, events: seq<Event>)
    requires Inv(start)
  {
    forall n :: 0 <= n < |events| ==> ChallengeMatches(After(start, events[..n]).server, events[n])
  }

  lemma AllMatchPrefix(start: Server, events: seq<Event>, n: nat)
    requires Inv(start) && AllMatch(start, events) && n < |events|
    ensures AllMatch(start, events[..n]) && ChallengeMatches(After(start, events[..n]).server, events[n])
  {
    hide Inv, Step, ChallengeMatches, After, Wf;
    forall k | 0 <= k < n
      ensures ChallengeMatches(After(start, events[..n][..k]).server, events[..n][k])
    {
      assert events[..n][..k] == events[..k];
    }
  }

  /** In every run in which challenges match, at every moment each client has at most one slot. */
  lemma {:induction false} MatchingRunsAreDistinct(start: Server, events: seq<Event>)
    requires IsStart(start) && Inv(start) && AllMatch(start, events)
    ensures DistinctIds(After(start, events).server.clients)
  {
    hide Inv, Step, CountId, IsStart, ChallengeMatches, AllMatch;
    if events == [] {
      StartInv(start);
    } else {
      var n := |events| - 1;
      AllMatchPrefix(start, events, n);
      MatchingRunsAreDistinct(start, events[..n]);
      MatchesStep(After(start, events[..n]).server, events[n]);
    }
  }

  lemma MatchesStep(s: Server, e: Event)
    requires Inv(s) && DistinctIds(s.clients) && ChallengeMatches(s, e)
    ensures DistinctIds(Step(s, e).server.clients)
  {
    hide Inv, Step, CountId, R.Seen;
    OneSlotPerClientIff(s, e);
  }

  // ---------------------------------------------------------------- panics

  /** The window of the connection, connected or pending, with this address. */
  ghost function WindowAt(s: Server, a: Address): Option<R.Window> {
    var i := SlotByAddr(s.clients, a);
    if i < |s.clients| then Some(s.clients[i].value.window)
    else if a in s.pending then Some(s.pending[a].window)
    else None
  }

  /** The event makes the server panic: a datagram that decoding cannot handle, from an address it has a key for. */
  ghost predicate Hits(s: Server, e: Event)
    requires Wf(s)
  {
    e.Arrival? && WindowAt(s, e.addr).Some? && Crashes(e.datagram, WindowAt(s, e.addr).value)
  }

  lemma StepPanicsIff(s: Server, e: Event)
    requires Wf(s)
    ensures Step(s, e).result.ServerPanic? <==> Hits(s, e)
    ensures Hits(s, e) ==> Step(s, e).server == s && !Sound(e.datagram)
  {
    hide R.Seen, SlotById, FreeSlot, FindOrAdd, RequestError;
    if e.Arrival? {
      AddrFound(s.clients, e.addr);
    }
  }

  ghost predicate HitAt(start: Server, events: seq<Event>, n: nat)
    requires Inv(start)
  {
    n < |events| && Hits(After(start, events[..n]).server, events[n])
  }

  /** A run of the server has panicked exactly if some arrival hit it. */
  lemma {:induction false} DownIffHit(start: Server, events: seq<Event>)
    requires Inv(start)
    ensures Down(After(start, events)) <==> exists n :: HitAt(start, events, n)
  {
    hide Inv, Hits, Step, Next, Down, HitAt;
    if events == [] {
      assert !Down(After(start, events)) && forall n :: !HitAt(start, events, n) by { NothingHits(start); }
    } else {
      var m := |events| - 1;
      DownIffHit(start, events[..m]);
      NextDownIff(After(start, events[..m]), events[m]);
      if n :| HitAt(start, events, n) {
        HitInPrefix(start, events, n);
      }
      if n :| HitAt(start, events[..m], n) {
        HitInPrefix(start, events, n);
      }
      HitInPrefix(start, events, m);
    }
  }

  lemma NothingHits(start: Server)
    requires Inv(start)
    ensures !Down(After(start, [])) && forall n :: !HitAt(start, [], n)
  {
  }

  lemma NextDownIff(h: History, e: Event)
    requires Inv(h.server) && Wf(h.server)
    ensures Down(Next(h, e)) <==> Down(h) || Hits(h.server, e)
  {
    hide Inv, Step, Hits;
    StepPanicsIff(h.server, e);
  }

  lemma HitInPrefix(start: Server, events: seq<Event>, n: nat)
    requires Inv(start) && events != []
    ensures var m := |events| - 1;
      HitAt(start, events, n) <==>
      HitAt(start, events[..m], n) || (n == m && Hits(After(start, events[..m]).server, events[m]))
  {
    hide Inv, Hits, After;
    if n < |events| - 1 {
      assert events[..|events| - 1][..n] == events[..n];
    }
  }

  /** If every datagram that arrives is sound, the server does not panic. */
  lemma SoundArrivalsNeverPanic(start: Server, events: seq<Event>)
    requires Inv(start) && forall n :: 0 <= n < |events| && events[n].Arrival? ==> Sound(events[n].datagram)
    ensures !Down(After(start, events))
  {
    hide Inv, After, Down;
    DownIffHit(start, events);
    forall n: nat
      ensures !HitAt(start, events, n)
    {
      if n < |events| {
        StepPanicsIff(After(start, events[..n]).server, events[n]);
      }
    }
  }

  /** In terms of bytes: no arriving prefix announces too many sequence bytes, and no tag is cut off. */
  lemma SoundBytesNeverPanic(start: Server, events: seq<Event>)
    requires Inv(start) && forall n :: 0 <= n < |events| && events[n].Arrival? ==> FromSoundBytes(events[n].datagram)
    ensures !Down(After(start, events))
  {
    hide Inv, After, Down, FromSoundBytes, Sound;
    forall n | 0 <= n < |events| && events[n].Arrival?
      ensures Sound(events[n].datagram)
    {
      FromSoundIsSound(events[n].datagram);
    }
    SoundArrivalsNeverPanic(start, events);
  }

  // ---------------------------------------------------------------- the slots at any moment

  /**
   In every run: occupied slots are connected with different addresses, no address is both
   pending and connected, there are at most 4096 pending clients, and the slots stay the
   ones the server was made with.
   */
  lemma {:induction false} SlotsStayOrdered(start: Server, events: seq<Event>)
    requires IsStart(start) && Inv(start)
    ensures var s := After(start, events).server;
      && |s.clients| == |start.clients| <= MAX_CLIENTS
      && (forall i :: 0 <= i < |s.clients| && s.clients[i].Some? ==>
           s.clients[i].value.state.Connected? && s.clients[i].value.addr !in s.pending)
      && (forall i, j :: 0 <= i < j < |s.clients| && s.clients[i].Some? && s.clients[j].Some? ==>
           s.clients[i].value.addr != s.clients[j].value.addr)
      && |s.pending| <= 4096
  {
    SlotCount(start, events);
    var s := After(start, events).server;
    forall i | 0 <= i < |s.clients| && s.clients[i].Some?
      ensures s.clients[i].value.addr !in s.pending
    {
      assert AddrAt(s.clients, i, s.clients[i].value.addr);
    }
    forall i, j | 0 <= i < j < |s.clients| && s.clients[i].Some? && s.clients[j].Some?
      ensures s.clients[i].value.addr != s.clients[j].value.addr
    {
      assert AddrAt(s.clients, i, s.clients[i].value.addr) && AddrAt(s.clients, j, s.clients[j].value.addr);
    }
  }

  lemma {:induction false} SlotCount(start: Server, events: seq<Event>)
    requires Inv(start)
    ensures |After(start, events).server.clients| == |start.clients|
  {
    hide Inv, Step;
    if events != [] {
      SlotCount(start, events[..|events| - 1]);
      StepSlots(After(start, events[..|events| - 1]).server, events[|events| - 1]);
    }
  }

  lemma PendingSlotCount(s: Server, a: Address, d: Datagram)
    requires Wf(s) && a in s.pending
    ensures |FromPending(s, a, d).server.clients| == |s.clients|
  {
    hide R.Seen, HandleRequest, SlotById, FreeSlot, CountId;
    if d.Request? {
      RequestAccounts(s.(pending := s.pending[a := s.pending[a].(lastReceived := s.now)]), a, d, 0);
    }
  }

  lemma ArrivalSlotCount(s: Server, a: Address, d: Datagram)
    requires Wf(s)
    ensures |ProcessPacket(s, a, d).server.clients| == |s.clients|
  {
    hide R.Seen, HandleRequest, FromPending, SlotByAddr, CountId;
    AddrFound(s.clients, a);
    if SlotByAddr(s.clients, a) == |s.clients| && a in s.pending {
      PendingSlotCount(s, a, d);
    } else if d.Request? {
      RequestAccounts(s, a, d, 0);
    }
  }

  lemma StepSlots(s: Server, e: Event)
    requires Wf(s)
    ensures |Step(s, e).server.clients| == |s.clients|
  {
    hide ProcessPacket, Wf, SlotById;
    if e.Arrival? {
      ArrivalSlotCount(s, e.addr, e.datagram);
    } else if e.Poll? || e.Kick? || e.Send? {
      IdFound(s.clients, e.clientId);
    }
  }

  // ---------------------------------------------------------------- connect tokens

  /** While a connect token is remembered under another address, requests with it change nothing. */
  lemma TokenBoundToAddress(s: Server, a: Address, d: Datagram, i: nat)
    requires Inv(s) && d.Request? && i < |s.entries| && HasMac(s.entries[i], d.data.mac) && s.entries[i].value.address != a
    ensures HandleRequest(s, a, d) == Outcome(s, NoResult)
  {
    FindOrAddSpec(s.entries, TokenEntry(s.now, a, d.data.mac));
    hide FindOrAdd, SlotById, SlotByAddr, RequestError;
  }
}
