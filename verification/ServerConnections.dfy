/**
 What each step of a netcode server does to each connection (renetcode/src/server.rs): when
 it was last heard of, and its replay window.
 */
module ServerConnections {
  import opened Common
  import opened NetcodePacket
  import opened NetcodeServer
  import opened ServerRuns
  import R = Replay

  datatype Trace = Trace(lastReceived: Time, window: R.Window)

  function TraceOf(c: Connection): Trace {
    Trace(c.lastReceived, c.window)
  }

  /** The connection, connected or pending, with this address. */
  ghost function ConnectionAt(s: Server, a: Address): (c: Option<Connection>)
    ensures Wf(s) && c.Some? ==> R.Wf(c.value.window)
  {
    var i := SlotByAddr(s.clients, a);
    if i < |s.clients| then s.clients[i] else if a in s.pending then Some(s.pending[a]) else None
  }

  /** A connection after a datagram from its address, if there is one. */
  ghost function TraceAfter(s: Server, c: Option<Connection>, d: Datagram): Trace
    requires c.Some? ==> R.Wf(c.value.window)
  {
    if c.None? then Trace(s.now, R.New())
    else if d.Request? then Trace(s.now, c.value.window)
    else
      var o := Open(d, s.protocolId, c.value.receiveKey, c.value.window);
      Trace(if o.result.Ok? then s.now else c.value.lastReceived, o.window)
  }

  ghost predicate SlotTrace(clients: Slots, i: nat, a: Address, tr: Trace) {
    i < |clients| && HasAddr(clients[i], a) && TraceOf(clients[i].value) == tr
  }

  ghost predicate PendingTrace(pending: map<Address, Connection>, a: Address, tr: Trace) {
    a in pending && TraceOf(pending[a]) == tr
  }

  /** There is a connection with address `a` in this state. */
  ghost predicate At(s: Server, a: Address, tr: Trace) {
    (exists i :: SlotTrace(s.clients, i, a, tr)) || PendingTrace(s.pending, a, tr)
  }

  /** A step leaves the connection of `a`, if there still is one, in the state given, or else as it was. */
  ghost predicate Keeps(s: Server, s': Server, a: Address, now: Option<Trace>) {
    forall tr :: At(s', a, tr) ==> if now.Some? then tr == now.value else At(s, a, tr)
  }

  function Only(a: Address, b: Address, tr: Trace): Option<Trace> {
    if a == b then Some(tr) else None
  }

  /** With the invariant there is one connection per address. */
  lemma AtIs(s: Server, a: Address, tr: Trace)
    requires Inv(s)
    ensures At(s, a, tr) <==> ConnectionAt(s, a).Some? && TraceOf(ConnectionAt(s, a).value) == tr
  {
    AddrFound(s.clients, a);
    var i := SlotByAddr(s.clients, a);
    if j: nat :| SlotTrace(s.clients, j, a, tr) {
      assert AddrAt(s.clients, j, a) && AddrAt(s.clients, i, a);
    }
    if i < |s.clients| {
      assert AddrAt(s.clients, i, a);
      assert SlotTrace(s.clients, i, a, TraceOf(s.clients[i].value));
    }
  }

  // ---------------------------------------------------------------- steps

  lemma RequestKeeps(s: Server, b: Address, d: Datagram, tr: Trace, a: Address)
    requires Wf(s) && d.Request? && (forall i :: !AddrAt(s.clients, i, b))
    requires tr == if b in s.pending then Trace(s.now, s.pending[b].window) else Trace(s.now, R.New())
    requires b in s.pending ==> s.pending[b].lastReceived == s.now
    ensures Keeps(s, HandleRequest(s, b, d).server, a, Only(a, b, tr))
  {
    hide SlotById, SlotByAddr, FindOrAdd, RequestError, Occupied, R.New;
    var s' := HandleRequest(s, b, d).server;
    assert s'.clients == s.clients;
    assert forall i, u :: SlotTrace(s.clients, i, b, u) ==> AddrAt(s.clients, i, b);
  }

  /** Slot `i` is replaced by its client in state `tr`, or freed. */
  lemma SlotKeeps(s: Server, i: nat, x: Option<Connection>, tr: Trace, a: Address)
    requires Inv(s) && i < |s.clients| && s.clients[i].Some?
    requires x.Some? ==> x.value.addr == s.clients[i].value.addr && TraceOf(x.value) == tr
    ensures Keeps(s, s.(clients := s.clients[i := x]), a, Only(a, s.clients[i].value.addr, tr))
  {
    var c := s.clients[i].value;
    var s' := s.(clients := s.clients[i := x]);
    assert AddrAt(s.clients, i, c.addr);
    assert c.addr !in s.pending;
    assert forall j :: AddrAt(s.clients, j, c.addr) ==> j == i;
    hide Inv;
    forall u | At(s', a, u)
      ensures if a == c.addr then u == tr else At(s, a, u)
    {
      if j :| SlotTrace(s'.clients, j, a, u) {
        if j == i {
          assert a == c.addr;
        } else {
          assert SlotTrace(s.clients, j, a, u) && AddrAt(s.clients, j, a);
        }
      }
    }
  }

  lemma ConnectedKeeps(s: Server, i: nat, d: Datagram, a: Address)
    requires Inv(s) && i < |s.clients| && s.clients[i].Some?
    ensures R.Wf(s.clients[i].value.window)
    ensures Keeps(s, FromConnected(s, i, d).server, a, Only(a, s.clients[i].value.addr, TraceAfter(s, s.clients[i], d)))
  {
    var c := s.clients[i].value;
    assert WfConnection(c);
    hide Inv, R.Seen, Keeps;
    SlotKeeps(s, i, FromConnected(s, i, d).server.clients[i], TraceAfter(s, s.clients[i], d), a);
    assert s.clients[i := s.clients[i]] == s.clients;
  }

  /** The pending client at `b` is replaced. */
  lemma PendingKeeps(s: Server, b: Address, p: Connection, a: Address)
    requires b in s.pending && (forall i :: !AddrAt(s.clients, i, b))
    ensures Keeps(s, s.(pending := s.pending[b := p]), a, Only(a, b, TraceOf(p)))
  {
    assert forall i, u :: SlotTrace(s.clients, i, b, u) ==> AddrAt(s.clients, i, b);
  }

  /** A pending client is promoted, denied or dropped. */
  lemma PromoteKeeps(s: Server, b: Address, id: nat, userData: UserData, a: Address)
    requires b in s.pending && s.pending[b].addr == b && (forall i :: !AddrAt(s.clients, i, b))
    ensures Keeps(s, Promote(s, b, id, userData).server, a, Only(a, b, TraceOf(s.pending[b])))
  {
    hide SlotById, FreeSlot;
    var s' := Promote(s, b, id, userData).server;
    forall u | At(s', a, u)
      ensures if a == b then u == TraceOf(s.pending[b]) else At(s, a, u)
    {
      if j: nat :| SlotTrace(s'.clients, j, a, u) {
        if s'.clients[j] == s.clients[j] {
          assert SlotTrace(s.clients, j, a, u) && AddrAt(s.clients, j, a);
        }
      }
    }
  }

  lemma KeepsAfter(s: Server, s1: Server, s': Server, a: Address, b: Address, tr: Trace)
    requires Keeps(s, s1, a, Only(a, b, tr)) && Keeps(s1, s', a, Only(a, b, tr))
    ensures Keeps(s, s', a, Only(a, b, tr))
  {
    hide At;
  }

  lemma FromPendingKeeps(s: Server, b: Address, d: Datagram, a: Address)
    requires Inv(s) && b in s.pending && (forall i :: !AddrAt(s.clients, i, b))
    ensures R.Wf(s.pending[b].window)
    ensures Keeps(s, FromPending(s, b, d).server, a, Only(a, b, TraceAfter(s, Some(s.pending[b]), d)))
  {
    var p := s.pending[b];
    assert WfConnection(p) && p.addr == b;
    assert Wf(s);
    hide Inv, R.Seen, Keeps, HandleRequest, Promote, AddrAt;
    var tr := TraceAfter(s, Some(p), d);
    if d.Request? {
      var p' := p.(lastReceived := s.now);
      var s1 := s.(pending := s.pending[b := p']);
      PendingKeeps(s, b, p', a);
      RequestKeeps(s1, b, d, tr, a);
      KeepsAfter(s, s1, FromPending(s, b, d).server, a, b, tr);
    } else {
      var o := Open(d, s.protocolId, p.receiveKey, p.window);
      var p' := p.(window := o.window, lastReceived := tr.lastReceived);
      PendingKeeps(s, b, p', a);
      if o.result.Ok? && Answers(o.result.value, s.challengeKey) {
        var s1 := s.(pending := s.pending[b := p']);
        var id, userData := o.result.value.tokenData.clientId, o.result.value.tokenData.userData;
        PromoteKeeps(s1, b, id, userData, a);
        KeepsAfter(s, s1, Promote(s1, b, id, userData).server, a, b, tr);
      } else if o.result == Err(DecodePanic) {
        PanicsIffCrashes(d, s.protocolId, p.receiveKey, p.window);
        assert p' == p && s.pending[b := p] == s.pending;
      }
    }
  }

  lemma ArrivalKeeps(s: Server, b: Address, d: Datagram, a: Address)
    requires Inv(s)
    ensures Wf(s) && Keeps(s, ProcessPacket(s, b, d).server, a, Only(a, b, TraceAfter(s, ConnectionAt(s, b), d)))
  {
    InvWf(s);
    AddrFound(s.clients, b);
    AtIs(s, b, TraceAfter(s, ConnectionAt(s, b), d));
    hide Inv, R.Seen, Keeps, HandleRequest, FromPending, FromConnected, SlotByAddr, Wf, At;
    var i := SlotByAddr(s.clients, b);
    if d.Malformed? {
      SameKeeps(s, a, b, TraceAfter(s, ConnectionAt(s, b), d));
    } else if i < |s.clients| {
      ConnectedKeeps(s, i, d, a);
    } else if b in s.pending {
      FromPendingKeeps(s, b, d, a);
    } else if d.Request? {
      RequestKeeps(s, b, d, TraceAfter(s, None, d), a);
    } else {
      SameKeeps(s, a, b, TraceAfter(s, None, d));
    }
  }

  lemma SameKeeps(s: Server, a: Address, b: Address, tr: Trace)
    requires Inv(s) && (ConnectionAt(s, b).Some? ==> TraceOf(ConnectionAt(s, b).value) == tr)
    ensures Keeps(s, s, a, Only(a, b, tr))
  {
    forall u | At(s, b, u)
      ensures u == tr
    {
      AtIs(s, b, u);
    }
  }

  lemma CommandKeeps(s: Server, e: Event, a: Address)
    requires Inv(s) && !e.Arrival?
    ensures Wf(s) && Keeps(s, Step(s, e).server, a, None)
  {
    InvWf(s);
    if e.Poll? || e.Kick? || e.Send? {
      IdFound(s.clients, e.clientId);
      var i := SlotById(s.clients, e.clientId);
      if i < |s.clients| {
        var c := s.clients[i].value;
        SlotKeeps(s, i, Step(s, e).server.clients[i], TraceOf(c), a);
        assert s.clients[i := s.clients[i]] == s.clients;
        assert SlotTrace(s.clients, i, c.addr, TraceOf(c));
      }
    } else {
      hide Inv, Wf;
    }
  }

  /** What a step does to the connection of each address. */
  lemma StepKeeps(s: Server, e: Event, a: Address)
    requires Inv(s)
    ensures Wf(s)
    ensures Keeps(s, Step(s, e).server, a,
                  if e.Arrival? then Only(a, e.addr, TraceAfter(s, ConnectionAt(s, e.addr), e.datagram)) else None)
  {
    hide Inv, Keeps, ProcessPacket;
    if e.Arrival? {
      ArrivalKeeps(s, e.addr, e.datagram, a);
    } else {
      CommandKeeps(s, e, a);
    }
  }

  lemma StepNow(s: Server, e: Event)
    requires Wf(s)
    ensures Step(s, e).server.now == if e.Elapse? then s.now + e.duration else s.now
  {
    hide R.Seen, SlotByAddr, SlotById, FreeSlot, FindOrAdd, RequestError;
  }
}
