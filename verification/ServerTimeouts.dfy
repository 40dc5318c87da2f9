/**
 When a netcode server drops a silent client (renetcode/src/server.rs): the time it last
 heard from a client, over whole runs.
 */
module ServerTimeouts {
  import opened Common
  import opened NetcodePacket
  import opened NetcodeServer
  import opened ServerRuns
  import opened ServerConnections
  import R = Replay

  /**
   What sets the time the server last heard from `a`: any connection request from there,
   whatever it contains, and any packet that opens under the key held for `a`.
   */
  ghost predicate Hears(s: Server, a: Address, d: Datagram)
    requires Wf(s)
  {
    || d.Request?
    || (ConnectionAt(s, a).Some? &&
        var c := ConnectionAt(s, a).value;
        Open(d, s.protocolId, c.receiveKey, c.window).result.Ok?)
  }

  ghost predicate HearsFrom(s: Server, e: Event, a: Address)
    requires Wf(s)
  {
    e.Arrival? && e.addr == a && Hears(s, a, e.datagram)
  }

  /** The connection with address `a` was last heard of at `t`. */
  ghost predicate LastHeard(s: Server, a: Address, t: Time) {
    ConnectionAt(s, a).Some? && ConnectionAt(s, a).value.lastReceived == t
  }

  /** A step sets the time if it hears from `a`, and keeps it otherwise. */
  lemma StepHears(s: Server, e: Event, a: Address, t: Time)
    requires Inv(s) && Wf(s) && LastHeard(Step(s, e).server, a, t)
    ensures if HearsFrom(s, e, a) then t == s.now else LastHeard(s, a, t)
  {
    hide Inv, Step, ConnectionAt, At, R.New, R.Seen;
    StepInv(s, e);
    var tr := TraceOf(ConnectionAt(Step(s, e).server, a).value);
    AtIs(Step(s, e).server, a, tr);
    StepKeeps(s, e, a);
    AtIs(s, a, tr);
    if e.Arrival? && e.addr == a && ConnectionAt(s, a).None? && !e.datagram.Request? {
      StrangerIgnored(s, a, e.datagram);
    }
  }

  lemma StrangerIgnored(s: Server, a: Address, d: Datagram)
    requires Wf(s) && ConnectionAt(s, a).None? && !d.Request?
    ensures Step(s, Arrival(a, d)) == Outcome(s, NoResult)
  {
    AddrFound(s.clients, a);
  }

  // ---------------------------------------------------------------- runs

  /** Event `n` of the run happens at `t` and makes the server hear from `a`. */
  ghost predicate HeardAt(start: Server, events: seq<Event>, n: nat, a: Address, t: Time)
    requires Inv(start)
  {
    && n < |events|
    && var h := After(start, events[..n]);
      !Down(h) && h.server.now == t && HearsFrom(h.server, events[n], a)
  }

  lemma HeardInPrefix(start: Server, events: seq<Event>, n: nat, a: Address, t: Time)
    requires Inv(start) && events != []
    ensures var m := |events| - 1;
      HeardAt(start, events, n, a, t) <==>
      || HeardAt(start, events[..m], n, a, t)
      || (n == m && !Down(After(start, events[..m])) && After(start, events[..m]).server.now == t &&
          HearsFrom(After(start, events[..m]).server, events[m], a))
  {
    hide Inv, HearsFrom, After, Down;
    if n < |events| - 1 {
      assert events[..|events| - 1][..n] == events[..n];
    }
  }

  lemma NextNow(h: History, e: Event)
    requires Inv(h.server)
    ensures h.server.now <= Next(h, e).server.now
  {
    hide Inv, Step;
    InvWf(h.server);
    StepNow(h.server, e);
  }

  /** Time does not run backwards. */
  lemma {:induction false} HeardBefore(start: Server, events: seq<Event>, n: nat, a: Address, t: Time)
    requires Inv(start) && HeardAt(start, events, n, a, t)
    ensures t <= After(start, events).server.now
  {
    hide Inv, HearsFrom, HeardAt, Next, Down;
    if events == [] {
      assert false by { NothingHeard(start, n, a, t); }
    } else {
      var m := |events| - 1;
      HeardInPrefix(start, events, n, a, t);
      NextNow(After(start, events[..m]), events[m]);
      if HeardAt(start, events[..m], n, a, t) {
        HeardBefore(start, events[..m], n, a, t);
      }
    }
  }

  lemma NothingHeard(start: Server, n: nat, a: Address, t: Time)
    requires Inv(start)
    ensures !HeardAt(start, [], n, a, t)
  {
  }

  /** The time kept for an address is that of the latest event that made the server hear from it. */
  ghost predicate IsLatest(start: Server, events: seq<Event>, a: Address, t: Time)
    requires Inv(start)
  {
    && (exists n :: HeardAt(start, events, n, a, t))
    && (forall n, u: Time :: HeardAt(start, events, n, a, u) ==> u <= t)
  }

  lemma {:induction false} LastHeardIsLatest(start: Server, events: seq<Event>, a: Address, t: Time)
    requires IsStart(start) && Inv(start) && LastHeard(After(start, events).server, a, t)
    ensures IsLatest(start, events, a, t)
  {
    hide Inv, IsStart, HearsFrom, HeardAt, Next, LastHeard;
    if events == [] {
      assert false by { NobodyAtStart(start, a, t); }
    } else {
      var m := |events| - 1;
      var h := After(start, events[..m]);
      NextKeeps(h, events[m], a, t);
      if !Down(h) && HearsFrom(h.server, events[m], a) {
        HeardInPrefix(start, events, m, a, t);
      } else {
        LastHeardIsLatest(start, events[..m], a, t);
        var n :| HeardAt(start, events[..m], n, a, t);
        HeardInPrefix(start, events, n, a, t);
      }
      forall n, u: Time | HeardAt(start, events, n, a, u)
        ensures u <= t
      {
        HeardInPrefix(start, events, n, a, u);
        if HeardAt(start, events[..m], n, a, u) {
          HeardBefore(start, events[..m], n, a, u);
        }
      }
    }
  }

  lemma NobodyAtStart(start: Server, a: Address, t: Time)
    requires IsStart(start) && Inv(start)
    ensures !LastHeard(start, a, t)
  {
  }

  lemma NextKeeps(h: History, e: Event, a: Address, t: Time)
    requires Inv(h.server) && Wf(h.server) && LastHeard(Next(h, e).server, a, t)
    ensures if !Down(h) && HearsFrom(h.server, e, a) then t == h.server.now else LastHeard(h.server, a, t)
  {
    hide Inv, Wf, Step, HearsFrom, LastHeard;
    if !Down(h) {
      StepHears(h.server, e, a, t);
    }
  }

  /** Something was heard from `a` no longer ago than `timeout`. */
  ghost predicate HeardWithin(start: Server, events: seq<Event>, a: Address, timeout: int)
    requires Inv(start)
  {
    exists n, t: Time :: HeardAt(start, events, n, a, t) && After(start, events).server.now <= t + timeout
  }

  lemma HeardWithinIff(start: Server, events: seq<Event>, a: Address, t: Time, timeout: int)
    requires IsStart(start) && Inv(start) && LastHeard(After(start, events).server, a, t)
    ensures HeardWithin(start, events, a, timeout) <==> After(start, events).server.now <= t + timeout
  {
    hide Inv, IsStart, HeardAt, LastHeard, After;
    LastHeardIsLatest(start, events, a, t);
    var n :| HeardAt(start, events, n, a, t);
  }

  lemma SlotIsHeard(s: Server, i: nat)
    requires Inv(s) && i < |s.clients| && s.clients[i].Some?
    ensures s.clients[i].value.state.Connected?
    ensures LastHeard(s, s.clients[i].value.addr, s.clients[i].value.lastReceived)
  {
    assert SlotTrace(s.clients, i, s.clients[i].value.addr, TraceOf(s.clients[i].value));
    AtIs(s, s.clients[i].value.addr, TraceOf(s.clients[i].value));
  }

  /**
   In every run, polling a client drops it exactly if it is connected, has a timeout, and
   neither a packet that opens under its key nor any connection request from its address
   has arrived within that timeout.
   */
  lemma PollDropsSilentIff(start: Server, events: seq<Event>, id: nat)
    requires IsStart(start) && Inv(start)
    ensures var s := After(start, events).server;
      var i := SlotById(s.clients, id);
      UpdateClient(s, id).result.ClientDisconnected? <==>
        && i < |s.clients| && s.clients[i].Some? && s.clients[i].value.timeoutSeconds > 0
        && !HeardWithin(start, events, s.clients[i].value.addr, s.clients[i].value.timeoutSeconds * NANOS_PER_SECOND)
  {
    hide Inv, IsStart, HeardWithin, LastHeard, SlotById, After;
    var s := After(start, events).server;
    IdFound(s.clients, id);
    var i := SlotById(s.clients, id);
    if i < |s.clients| {
      var c := s.clients[i].value;
      SlotIsHeard(s, i);
      HeardWithinIff(start, events, c.addr, c.lastReceived, c.timeoutSeconds * NANOS_PER_SECOND);
    }
  }

  /**
   A client that is about to be dropped is kept by a connection request from its address
   that carries no valid version, protocol or token.
   */
  lemma EmptyRequestKeepsSilentClient(s: Server, id: nat)
    requires Inv(s) && UpdateClient(s, id).result.ClientDisconnected?
    ensures var a := s.clients[SlotById(s.clients, id)].value.addr;
      var s' := ProcessPacket(s, a, Request(false, 0, 0, 0, ForgedToken(0))).server;
      !UpdateClient(s', id).result.ClientDisconnected?
  {
    IdFound(s.clients, id);
    var i := SlotById(s.clients, id);
    var c := s.clients[i].value;
    assert AddrAt(s.clients, i, c.addr) && c.state.Connected?;
    AddrFound(s.clients, c.addr);
    assert SlotByAddr(s.clients, c.addr) == i;
    var clients := s.clients[i := Some(c.(lastReceived := s.now))];
    assert SlotById(clients, id) == i by { SameIdSlot(s.clients, clients, i, id); }
    hide Inv, SlotById, SlotByAddr;
  }

  /** Replacing a slot's client by itself does not change where its id is found. */
  lemma SameIdSlot(a: Slots, b: Slots, i: nat, id: nat)
    requires i < |a| == |b| && b == a[i := b[i]] && HasId(a[i], id) && HasId(b[i], id) && SlotById(a, id) == i
    ensures SlotById(b, id) == i
  {
  }
}
