/**
 The payloads a netcode server hands out over a run (renetcode/src/server.rs): within one
 connection no sequence is handed out twice.
 */
module ServerPayloads {
  import opened Common
  import opened NetcodePacket
  import opened NetcodeServer
  import opened ServerRuns
  import opened ServerConnections
  import R = Replay

  /** A payload, and the connection it was handed out for: connections are numbered as they are reported. */
  datatype Handed = Handed(session: nat, clientId: nat, key: Key, sequence: nat, bytes: seq<byte>)

  /** The protected sequences that passed, per address, the number of each address's connection, and the payloads. */
  datatype Ledger = Ledger(passed: map<Address, set<nat>>, session: map<Address, nat>, sessions: nat, handed: seq<Handed>)

  const BLANK: Ledger := Ledger(map[], map[], 0, [])

  /** The datagram is authentic for the connection of its address, protected and new. */
  ghost predicate Passes(s: Server, a: Address, d: Datagram)
    requires Wf(s)
  {
    var c := ConnectionAt(s, a);
    c.Some? && Authentic(d, s.protocolId, c.value.receiveKey) && Protected(d.body) && !R.Seen(c.value.window, d.sequence)
  }

  ghost function Passed(l: Ledger, a: Address): set<nat> {
    if a in l.passed then l.passed[a] else {}
  }

  ghost function PassedAfter(s: Server, a: Address, d: Datagram, before: set<nat>): set<nat>
    requires Wf(s)
  {
    if ConnectionAt(s, a).None? then {} else if Passes(s, a, d) then before + {d.sequence} else before
  }

  ghost function Record(l: Ledger, s: Server, e: Event): Ledger
    requires Wf(s)
  {
    if !e.Arrival? then l
    else
      var r := Step(s, e).result;
      var a, d := e.addr, e.datagram;
      var n := if a in l.session then l.session[a] else 0;
      var c := ConnectionAt(s, a);
      Ledger(
        l.passed[a := PassedAfter(s, a, d, Passed(l, a))],
        if r.ClientConnected? then l.session[a := l.sessions] else l.session,
        if r.ClientConnected? then l.sessions + 1 else l.sessions,
        if r.PayloadFrom? && c.Some? && d.Sealed? then
          l.handed + [Handed(n, r.clientId, c.value.receiveKey, d.sequence, r.bytes)]
        else l.handed)
  }

  ghost function Records(start: Server, events: seq<Event>): Ledger
    requires Inv(start)
  {
    if events == [] then BLANK
    else
      var n := |events| - 1;
      var l := Records(start, events[..n]);
      var h := After(start, events[..n]);
      if Down(h) then l else Record(l, h.server, events[n])
  }

  // ---------------------------------------------------------------- the invariant

  ghost predicate WindowsOk(s: Server, l: Ledger) {
    forall a :: ConnectionAt(s, a).Some? ==> R.Inv(ConnectionAt(s, a).value.window, Passed(l, a))
  }

  ghost predicate SessionsOk(s: Server, l: Ledger) {
    && (forall i, a :: AddrAt(s.clients, i, a) ==> a in l.session && l.session[a] < l.sessions)
    && (forall i, a, j, b :: AddrAt(s.clients, i, a) && AddrAt(s.clients, j, b) && i != j ==> l.session[a] != l.session[b])
  }

  ghost predicate HandedOk(s: Server, l: Ledger)
    requires SessionsOk(s, l)
  {
    && (forall m :: 0 <= m < |l.handed| ==> l.handed[m].session < l.sessions)
    && (forall i, a, m :: AddrAt(s.clients, i, a) && 0 <= m < |l.handed| && l.handed[m].session == l.session[a] ==>
         l.handed[m].sequence in Passed(l, a))
  }

  /** No sequence twice in one connection. */
  ghost predicate NoTwice(handed: seq<Handed>) {
    forall m, n :: 0 <= m < n < |handed| && handed[m].session == handed[n].session ==>
      handed[m].sequence != handed[n].sequence
  }

  ghost predicate LedgerInv(s: Server, l: Ledger) {
    WindowsOk(s, l) && SessionsOk(s, l) && HandedOk(s, l) && NoTwice(l.handed)
  }

  // ---------------------------------------------------------------- steps

  lemma WindowAdvances(s: Server, a: Address, d: Datagram)
    requires Wf(s) && ConnectionAt(s, a).Some?
    ensures var w := ConnectionAt(s, a).value.window;
      TraceAfter(s, ConnectionAt(s, a), d).window == if Passes(s, a, d) then R.Advance(w, d.sequence) else w
  {
    hide R.Seen, R.Advance, ConnectionAt;
  }

  lemma WindowsStep(s: Server, l: Ledger, e: Event, a: Address)
    requires Inv(s) && Wf(s) && WindowsOk(s, l) && (e.Arrival? && e.datagram.Sealed? ==> e.datagram.sequence < R.WORD)
    requires ConnectionAt(Step(s, e).server, a).Some?
    ensures R.Inv(ConnectionAt(Step(s, e).server, a).value.window, Passed(Record(l, s, e), a))
  {
    hide Inv, Wf, Step, ConnectionAt, At, R.New, R.Seen, R.Inv, R.Advance;
    StepInv(s, e);
    var tr := TraceOf(ConnectionAt(Step(s, e).server, a).value);
    AtIs(Step(s, e).server, a, tr);
    StepKeeps(s, e, a);
    AtIs(s, a, tr);
    R.NewInv();
    if e.Arrival? && a == e.addr && ConnectionAt(s, a).Some? {
      WindowAdvances(s, a, e.datagram);
      if Passes(s, a, e.datagram) {
        PassingAdvances(s, a, e.datagram, Passed(l, a));
      }
    }
  }

  lemma PassingAdvances(s: Server, a: Address, d: Datagram, passed: set<nat>)
    requires Wf(s) && Passes(s, a, d) && d.sequence < R.WORD
    requires R.Inv(ConnectionAt(s, a).value.window, passed)
    ensures R.Inv(R.Advance(ConnectionAt(s, a).value.window, d.sequence), passed + {d.sequence})
    ensures d.sequence !in passed
  {
    hide ConnectionAt, R.Inv, R.Seen, R.Advance;
    var w := ConnectionAt(s, a).value.window;
    R.AdvanceInv(w, passed, d.sequence);
    if d.sequence in passed {
      SeenAgain(w, passed, d.sequence);
    }
  }

  ghost predicate SlotsFrom(s: Server, o: Outcome, b: Address) {
    forall i, a :: AddrAt(o.server.clients, i, a) ==> AddrAt(s.clients, i, a) || (o.result.ClientConnected? && a == b)
  }

  lemma ConnectedSlots(s: Server, i: nat, d: Datagram, b: Address)
    requires Wf(s) && i < |s.clients| && s.clients[i].Some?
    ensures SlotsFrom(s, FromConnected(s, i, d), b)
  {
    hide R.Seen;
  }

  lemma RequestSlots(s: Server, b: Address, d: Datagram)
    requires d.Request? && |s.entries| > 0
    ensures HandleRequest(s, b, d).server.clients == s.clients
  {
    hide SlotById, SlotByAddr, FindOrAdd, RequestError;
  }

  lemma PromoteSlots(s: Server, b: Address, id: nat, userData: UserData)
    requires b in s.pending && s.pending[b].addr == b
    ensures SlotsFrom(s, Promote(s, b, id, userData), b)
  {
    hide SlotById, FreeSlot;
  }

  lemma PendingSlots(s: Server, b: Address, d: Datagram)
    requires Wf(s) && b in s.pending && s.pending[b].addr == b
    ensures SlotsFrom(s, FromPending(s, b, d), b)
  {
    hide R.Seen, HandleRequest, Promote, AddrAt;
    var p := s.pending[b];
    if d.Request? {
      RequestSlots(s.(pending := s.pending[b := p.(lastReceived := s.now)]), b, d);
    } else {
      var o := Open(d, s.protocolId, p.receiveKey, p.window);
      if o.result.Ok? && Answers(o.result.value, s.challengeKey) {
        var s' := s.(pending := s.pending[b := p.(window := o.window, lastReceived := s.now)]);
        PromoteSlots(s', b, o.result.value.tokenData.clientId, o.result.value.tokenData.userData);
      }
    }
  }

  lemma CommandSlots(s: Server, e: Event)
    requires Wf(s) && !e.Arrival?
    ensures SlotsFrom(s, Step(s, e), 0) && !Step(s, e).result.ClientConnected?
  {
  }

  /** Who is in a slot after a step was there before, or has just been reported as connected. */
  lemma SlotOrigin(s: Server, e: Event, i: nat, a: Address)
    requires Inv(s) && Wf(s) && AddrAt(Step(s, e).server.clients, i, a)
    ensures AddrAt(s.clients, i, a) || (Step(s, e).result.ClientConnected? && e.Arrival? && a == e.addr)
  {
    if e.Arrival? {
      var b, d := e.addr, e.datagram;
      AddrFound(s.clients, b);
      assert b in s.pending ==> s.pending[b].addr == b;
      hide Inv, FromConnected, FromPending, HandleRequest, SlotByAddr, AddrAt;
      var k := SlotByAddr(s.clients, b);
      if d.Malformed? {
      } else if k < |s.clients| {
        ConnectedSlots(s, k, d, b) by { assert AddrAt(s.clients, k, b); SomeAt(s.clients, k, b); }
      } else if b in s.pending {
        PendingSlots(s, b, d);
      } else if d.Request? {
        RequestSlots(s, b, d);
      }
    } else {
      CommandSlots(s, e);
    }
  }

  lemma SomeAt(clients: Slots, i: nat, a: Address)
    requires AddrAt(clients, i, a)
    ensures i < |clients| && clients[i].Some?
  {
  }

  /** A client that is reported as connected had no slot before. */
  lemma ConnectedIsNew(s: Server, e: Event, i: nat)
    requires Inv(s) && Wf(s) && Step(s, e).result.ClientConnected?
    ensures e.Arrival? && !AddrAt(s.clients, i, e.addr)
  {
    assert e.Arrival? by { hide R.Seen, Inv, ProcessPacket; }
    ConnectsIffPromotes(s, e.addr, e.datagram);
    AddrFound(s.clients, e.addr);
    hide R.Seen, ProcessPacket, Inv;
  }

  /** A payload the server hands out was sealed with the key of the client it is attributed to, and is new. */
  lemma PayloadIsAuthentic(s: Server, a: Address, d: Datagram)
    requires Wf(s) && ProcessPacket(s, a, d).result.PayloadFrom?
    ensures var i := SlotByAddr(s.clients, a);
      && i < |s.clients| && HasAddr(s.clients[i], a)
      && var c := s.clients[i].value;
        && ProcessPacket(s, a, d).result == PayloadFrom(c.clientId, d.body.bytes)
        && d == Sealed(c.receiveKey, s.protocolId, d.sequence, Payload(d.body.bytes)) && !R.Seen(c.window, d.sequence)
  {
    AddrFound(s.clients, a);
    hide R.Seen, SlotByAddr, SlotById, FreeSlot, FindOrAdd, RequestError;
  }

  /** The number of a slot's connection after a step: the one it had, or a new one. */
  lemma SessionAfter(s: Server, l: Ledger, e: Event, i: nat, a: Address)
    requires Inv(s) && Wf(s) && SessionsOk(s, l) && AddrAt(Step(s, e).server.clients, i, a)
    ensures var l' := Record(l, s, e);
      && a in l'.session && l'.session[a] < l'.sessions
      && if AddrAt(s.clients, i, a) then a in l.session && l'.session[a] == l.session[a] < l.sessions
         else Step(s, e).result.ClientConnected? && e.Arrival? && a == e.addr && l'.session[a] == l.sessions
  {
    hide Inv, Wf, Step, ConnectionAt, AddrAt, PassedAfter;
    SlotOrigin(s, e, i, a);
    if Step(s, e).result.ClientConnected? {
      ConnectedIsNew(s, e, i);
    }
  }

  lemma SessionsStep(s: Server, l: Ledger, e: Event)
    requires Inv(s) && Wf(s) && SessionsOk(s, l)
    ensures SessionsOk(Step(s, e).server, Record(l, s, e))
  {
    StepInv(s, e);
    var s', l' := Step(s, e).server, Record(l, s, e);
    assert DistinctAddrs(s'.clients);
    hide Inv, Wf, Step, ConnectionAt, AddrAt, PassedAfter, Record;
    forall i, a | AddrAt(s'.clients, i, a)
      ensures a in l'.session && l'.session[a] < l'.sessions
    {
      SessionAfter(s, l, e, i, a);
    }
    forall i, a, j, b | AddrAt(s'.clients, i, a) && AddrAt(s'.clients, j, b) && i != j
      ensures l'.session[a] != l'.session[b]
    {
      SessionAfter(s, l, e, i, a);
      SessionAfter(s, l, e, j, b);
    }
  }

  /** What a step adds to the payloads: nothing, or a sequence that is new to the connection in slot `i`. */
  lemma HandsOut(s: Server, l: Ledger, e: Event) returns (i: nat)
    requires Inv(s) && Wf(s) && WindowsOk(s, l) && SessionsOk(s, l)
    requires e.Arrival? && e.datagram.Sealed? ==> e.datagram.sequence < R.WORD
    requires Record(l, s, e).handed != l.handed
    ensures e.Arrival? && e.datagram.Sealed? && AddrAt(s.clients, i, e.addr) && AddrAt(Step(s, e).server.clients, i, e.addr)
    ensures var h := Record(l, s, e).handed;
      && |h| == |l.handed| + 1 && h[..|l.handed|] == l.handed
      && h[|l.handed|].session == l.session[e.addr] && h[|l.handed|].sequence == e.datagram.sequence
    ensures e.datagram.sequence !in Passed(l, e.addr) && e.datagram.sequence in Passed(Record(l, s, e), e.addr)
    ensures !Step(s, e).result.ClientConnected?
  {
    var a, d := e.addr, e.datagram;
    PayloadIsAuthentic(s, a, d);
    i := SlotByAddr(s.clients, a);
    assert AddrAt(Step(s, e).server.clients, i, a) by { PayloadKeepsSlot(s, a, d); }
    hide Inv, R.Seen, R.Inv, SlotByAddr, ProcessPacket;
    assert Passes(s, a, d);
    PassingAdvances(s, a, d, Passed(l, a));
  }

  lemma PayloadKeepsSlot(s: Server, a: Address, d: Datagram)
    requires Wf(s) && ProcessPacket(s, a, d).result.PayloadFrom?
    ensures AddrAt(ProcessPacket(s, a, d).server.clients, SlotByAddr(s.clients, a), a)
  {
    PayloadIsAuthentic(s, a, d);
    hide R.Seen, SlotByAddr;
  }

  /** Passed sequences of an address with a slot only grow. */
  lemma PassedGrows(s: Server, l: Ledger, e: Event, i: nat, a: Address)
    requires Wf(s) && AddrAt(s.clients, i, a)
    ensures Passed(l, a) <= Passed(Record(l, s, e), a)
  {
    AddrFound(s.clients, a);
    hide Step, Passes;
  }

  /** Payloads handed out before stay accounted for. */
  lemma OldHanded(s: Server, l: Ledger, e: Event, i: nat, a: Address, m: nat)
    requires Inv(s) && Wf(s) && SessionsOk(s, l) && HandedOk(s, l) && AddrAt(Step(s, e).server.clients, i, a)
    requires m < |l.handed| && a in Record(l, s, e).session && l.handed[m].session == Record(l, s, e).session[a]
    ensures l.handed[m].sequence in Passed(Record(l, s, e), a)
  {
    hide Inv, Wf, Step, AddrAt, Record, Passed;
    SessionAfter(s, l, e, i, a);
    if AddrAt(s.clients, i, a) {
      PassedGrows(s, l, e, i, a);
    }
  }

  lemma SessionIn(s: Server, l: Ledger, i: nat, a: Address)
    requires SessionsOk(s, l) && AddrAt(s.clients, i, a)
    ensures a in l.session && l.session[a] < l.sessions
  {
  }

  lemma SameSession(s: Server, l: Ledger, i: nat, a: Address, k: nat, b: Address)
    requires SessionsOk(s, l) && AddrAt(s.clients, i, a) && AddrAt(s.clients, k, b) && l.session[a] == l.session[b]
    ensures i == k && a == b
  {
  }

  lemma HandedStep(s: Server, l: Ledger, e: Event)
    requires Inv(s) && Wf(s) && LedgerInv(s, l) && SessionsOk(Step(s, e).server, Record(l, s, e))
    requires e.Arrival? && e.datagram.Sealed? ==> e.datagram.sequence < R.WORD
    ensures HandedOk(Step(s, e).server, Record(l, s, e))
  {
    hide Inv, Wf, Step, ConnectionAt, AddrAt, PassedAfter, Passed, WindowsOk, SessionsOk, NoTwice;
    var s', l' := Step(s, e).server, Record(l, s, e);
    var k := 0;
    if l'.handed != l.handed {
      k := HandsOut(s, l, e);
      SessionIn(s, l, k, e.addr);
      SessionAfter(s, l, e, k, e.addr);
    }
    forall i, a | AddrAt(s'.clients, i, a)
      ensures a in l'.session
    {
      SessionIn(s', l', i, a);
    }
    forall i, a, m | AddrAt(s'.clients, i, a) && 0 <= m < |l'.handed| && l'.handed[m].session == l'.session[a]
      ensures l'.handed[m].sequence in Passed(l', a)
    {
      if m < |l.handed| {
        OldHanded(s, l, e, i, a, m);
      } else {
        SameSession(s', l', i, a, k, e.addr);
      }
    }
  }

  lemma NoTwiceStep(s: Server, l: Ledger, e: Event)
    requires Inv(s) && Wf(s) && LedgerInv(s, l)
    requires e.Arrival? && e.datagram.Sealed? ==> e.datagram.sequence < R.WORD
    ensures NoTwice(Record(l, s, e).handed)
  {
    hide Inv, Wf, Step, ConnectionAt, AddrAt, PassedAfter, Passed, WindowsOk, SessionsOk;
    if Record(l, s, e).handed != l.handed {
      var k := HandsOut(s, l, e);
      SessionIn(s, l, k, e.addr);
    }
  }

  lemma LedgerStep(s: Server, l: Ledger, e: Event)
    requires Inv(s) && Wf(s) && LedgerInv(s, l)
    requires e.Arrival? && e.datagram.Sealed? ==> e.datagram.sequence < R.WORD
    ensures LedgerInv(Step(s, e).server, Record(l, s, e))
  {
    hide Inv, Wf, Step, ConnectionAt, Record, SessionsOk, HandedOk, NoTwice, Passed, R.Inv;
    var s' := Step(s, e).server;
    forall a | ConnectionAt(s', a).Some?
      ensures R.Inv(ConnectionAt(s', a).value.window, Passed(Record(l, s, e), a))
    {
      WindowsStep(s, l, e, a);
    }
    SessionsStep(s, l, e);
    HandedStep(s, l, e);
    NoTwiceStep(s, l, e);
  }

  ghost predicate WordArrivals(events: seq<Event>) {
    forall n :: 0 <= n < |events| && events[n].Arrival? && events[n].datagram.Sealed? ==> events[n].datagram.sequence < R.WORD
  }

  lemma StartLedger(start: Server)
    requires IsStart(start)
    ensures LedgerInv(start, BLANK)
  {
  }

  lemma {:induction false} RunLedger(start: Server, events: seq<Event>)
    requires IsStart(start) && Inv(start) && WordArrivals(events)
    ensures LedgerInv(After(start, events).server, Records(start, events))
  {
    hide Inv, IsStart, LedgerInv, Record, Step, Down;
    if events == [] {
      StartLedger(start);
    } else {
      var n := |events| - 1;
      RunLedger(start, events[..n]);
      LedgerStep(After(start, events[..n]).server, Records(start, events[..n]), events[n]);
    }
  }

  /** In every run, no connection is handed the payload of one sequence twice. */
  lemma NoPayloadTwice(start: Server, events: seq<Event>)
    requires IsStart(start) && Inv(start) && WordArrivals(events)
    ensures NoTwice(Records(start, events).handed)
  {
    hide Inv, IsStart, WindowsOk, SessionsOk, HandedOk, NoTwice, Records, After;
    RunLedger(start, events);
  }

  /** The payloads among the results. */
  ghost function PayloadsIn(results: seq<ServerResult>): seq<(nat, seq<byte>)> {
    if results == [] then []
    else
      var r := results[|results| - 1];
      PayloadsIn(results[..|results| - 1]) + if r.PayloadFrom? then [(r.clientId, r.bytes)] else []
  }

  ghost function Contents(handed: seq<Handed>): seq<(nat, seq<byte>)> {
    seq(|handed|, i requires 0 <= i < |handed| => (handed[i].clientId, handed[i].bytes))
  }

  lemma RecordContents(l: Ledger, s: Server, e: Event)
    requires Wf(s)
    ensures var r := Step(s, e).result;
      Contents(Record(l, s, e).handed) == Contents(l.handed) + if r.PayloadFrom? then [(r.clientId, r.bytes)] else []
  {
    if Step(s, e).result.PayloadFrom? {
      assert e.Arrival? by { hide ProcessPacket; }
      PayloadIsAuthentic(s, e.addr, e.datagram);
    }
    hide ProcessPacket, R.Seen, SlotByAddr;
  }

  /** The record is complete: it holds the payloads of all results, in order. */
  lemma {:induction false} LedgerIsComplete(start: Server, events: seq<Event>)
    requires Inv(start)
    ensures Contents(Records(start, events).handed) == PayloadsIn(After(start, events).results)
  {
    hide Inv, Record, Step, Contents, Down;
    if events == [] {
      assert Contents([]) == [] by { NothingHanded(); }
    } else {
      var n := |events| - 1;
      LedgerIsComplete(start, events[..n]);
      var h := After(start, events[..n]);
      RecordContents(Records(start, events[..n]), h.server, events[n]);
      var h' := After(start, events);
      assert h'.results[..n] == h.results;
    }
  }

  lemma NothingHanded()
    ensures Contents([]) == []
  {
  }
}
