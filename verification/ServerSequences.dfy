/**
 The sequences of the packets a netcode server seals for its clients over a run
 (renetcode/src/server.rs): within one connection the keep-alives, the payloads and the
 farewell are numbered 0, 1, 2 and so on.
 */
module ServerSequences {
  import opened Common
  import opened NetcodePacket
  import opened NetcodeServer
  import opened ServerRuns
  import opened ServerConnections
  import opened ServerPayloads
  import R = Replay

  /** A packet for the client of a connection; connections are numbered as they are reported. */
  datatype Outgoing = Outgoing(session: nat, packet: Datagram)

  /** The packet a step puts out, and where it goes. */
  ghost function PutOut(s: Server, e: Event): Option<(Address, Datagram)>
    requires Wf(s)
  {
    if e.Send? then
      var r := GeneratePayload(s, e.clientId, e.payload).1;
      if r.Ok? then Some(r.value) else None
    else
      match Step(s, e).result
      case PacketToSend(a, d) => Some((a, d))
      case ClientConnected(_, a, _, d) => Some((a, d))
      case ClientDisconnected(_, a, Some(d)) => Some((a, d))
      case _ => None
  }

  /** Keep-alives, payloads and farewells; the others are challenges and denials. */
  predicate ForClient(d: Datagram) {
    d.Sealed? && Protected(d.body)
  }

  ghost function NewlyOut(s: Server, l: Ledger, e: Event): seq<Outgoing>
    requires Wf(s)
  {
    var x := PutOut(s, e);
    var sessions := Record(l, s, e).session;
    if x.Some? && ForClient(x.value.1) then
      [Outgoing(if x.value.0 in sessions then sessions[x.value.0] else 0, x.value.1)]
    else []
  }

  /** The keep-alives, payloads and farewells of a run, in order. */
  ghost function OutgoingIn(start: Server, events: seq<Event>): seq<Outgoing>
    requires Inv(start)
  {
    if events == [] then []
    else
      var n := |events| - 1;
      var h := After(start, events[..n]);
      OutgoingIn(start, events[..n]) + if Down(h) then [] else NewlyOut(h.server, Records(start, events[..n]), events[n])
  }

  /** How many of them belong to a connection. */
  ghost function Count(out: seq<Outgoing>, session: nat): nat {
    if out == [] then 0
    else Count(out[..|out| - 1], session) + if out[|out| - 1].session == session then 1 else 0
  }

  // ---------------------------------------------------------------- steps

  /** The slots after a step: as before, with the same key and sequence, or taken by the pending client at `b`. */
  ghost predicate SameNumbers(s: Server, o: Outcome, b: Address) {
    forall i: nat, a :: AddrAt(o.server.clients, i, a) ==>
      var c' := o.server.clients[i].value;
      if AddrAt(s.clients, i, a) then c'.sendKey == s.clients[i].value.sendKey && c'.sequence == s.clients[i].value.sequence
      else
        && o.result.ClientConnected? && a == b && b in s.pending
        && c'.sendKey == s.pending[b].sendKey && c'.sequence == s.pending[b].sequence + 1
  }

  /** What an arrival from `b` makes the server put out. */
  ghost predicate Replies(s: Server, o: Outcome, b: Address) {
    && (o.result.PacketToSend? ==> !ForClient(o.result.packet))
    && (o.result.ClientDisconnected? ==> o.result.farewell.None?)
    && (o.result.ClientConnected? ==>
         && b in s.pending && o.result.addr == b
         && var p := s.pending[b];
           exists k :: o.result.packet == Sealed(p.sendKey, s.protocolId, p.sequence, KeepAlive(k, s.maxClients)))
  }

  lemma ConnectedNumbers(s: Server, i: nat, d: Datagram, b: Address)
    requires Wf(s) && i < |s.clients| && s.clients[i].Some?
    ensures SameNumbers(s, FromConnected(s, i, d), b) && Replies(s, FromConnected(s, i, d), b)
  {
    hide R.Seen;
  }

  lemma RequestNumbers(s: Server, b: Address, d: Datagram)
    requires d.Request? && |s.entries| > 0
    ensures SameNumbers(s, HandleRequest(s, b, d), b) && Replies(s, HandleRequest(s, b, d), b)
  {
    hide SlotById, SlotByAddr, FindOrAdd, RequestError, Occupied;
  }

  lemma PromoteNumbers(s: Server, b: Address, id: nat, userData: UserData)
    requires b in s.pending && s.pending[b].addr == b
    ensures SameNumbers(s, Promote(s, b, id, userData), b) && Replies(s, Promote(s, b, id, userData), b)
  {
    hide SlotById;
  }

  lemma PendingNumbers(s: Server, b: Address, d: Datagram)
    requires Wf(s) && b in s.pending && s.pending[b].addr == b
    ensures SameNumbers(s, FromPending(s, b, d), b) && Replies(s, FromPending(s, b, d), b)
  {
    hide R.Seen, HandleRequest, Promote, AddrAt;
    var p := s.pending[b];
    if d.Request? {
      RequestNumbers(s.(pending := s.pending[b := p.(lastReceived := s.now)]), b, d);
    } else {
      var o := Open(d, s.protocolId, p.receiveKey, p.window);
      if o.result.Ok? && Answers(o.result.value, s.challengeKey) {
        var s' := s.(pending := s.pending[b := p.(window := o.window, lastReceived := s.now)]);
        PromoteNumbers(s', b, o.result.value.tokenData.clientId, o.result.value.tokenData.userData);
      }
    }
  }

  lemma ArrivalNumbers(s: Server, b: Address, d: Datagram)
    requires Inv(s) && Wf(s)
    ensures SameNumbers(s, ProcessPacket(s, b, d), b) && Replies(s, ProcessPacket(s, b, d), b)
  {
    AddrFound(s.clients, b);
    assert b in s.pending ==> s.pending[b].addr == b;
    hide Inv, FromConnected, FromPending, HandleRequest, SlotByAddr, AddrAt;
    var k := SlotByAddr(s.clients, b);
    if d.Malformed? {
    } else if k < |s.clients| {
      ConnectedNumbers(s, k, d, b) by { assert AddrAt(s.clients, k, b); SomeAt(s.clients, k, b); }
    } else if b in s.pending {
      PendingNumbers(s, b, d);
    } else if d.Request? {
      RequestNumbers(s, b, d);
    }
  }

  /** The connection in slot `k`, with the next sequence and maybe other timers, or gone. */
  ghost predicate NextInSlot(before: Slots, after: Slots, k: nat) {
    && k < |before| == |after| && before[k].Some?
    && (after[k].Some? ==>
         && after[k].value.addr == before[k].value.addr && after[k].value.sendKey == before[k].value.sendKey
         && after[k].value.sequence == before[k].value.sequence + 1)
    && forall i :: 0 <= i < |after| && i != k ==> after[i] == before[i]
  }

  /** A step that is no arrival puts out nothing and keeps the slots, or seals the next packet of the client in slot `k`. */
  lemma CommandNumbers(s: Server, e: Event) returns (k: nat)
    requires Wf(s) && !e.Arrival?
    ensures PutOut(s, e).None? ==> Step(s, e).server.clients == s.clients
    ensures PutOut(s, e).Some? ==>
      && NextInSlot(s.clients, Step(s, e).server.clients, k)
      && var c := s.clients[k].value;
        PutOut(s, e).value.0 == c.addr &&
        exists b :: Protected(b) && PutOut(s, e).value.1 == Seal(c.sendKey, s.protocolId, c.sequence, b)
    ensures !Step(s, e).result.ClientConnected?
  {
    k := 0;
    if e.Poll? || e.Kick? || e.Send? {
      k := SlotById(s.clients, e.clientId);
      IdFound(s.clients, e.clientId);
      hide SlotById, Wf;
      if k < |s.clients| {
        var c := s.clients[k].value;
        assert Protected(KeepAlive(k, s.maxClients)) && Protected(Disconnect);
        if e.Send? {
          assert Protected(Payload(e.payload));
        }
      }
    }
  }

  // ---------------------------------------------------------------- pending clients

  ghost predicate PendingZero(pending: map<Address, Connection>) {
    forall a :: a in pending ==> pending[a].sequence == 0
  }

  lemma PendingZeroStep(s: Server, e: Event)
    requires Wf(s) && PendingZero(s.pending)
    ensures PendingZero(Step(s, e).server.pending)
  {
    hide R.Seen, SlotByAddr, SlotById, FreeSlot, FindOrAdd, RequestError, Occupied, WfConnection;
  }

  // ---------------------------------------------------------------- the invariant

  /** The connection's next sequence is the number of its packets so far, all sealed with its key. */
  ghost predicate Numbered(c: Connection, session: nat, out: seq<Outgoing>) {
    && c.sequence == Count(out, session) > 0
    && forall m :: 0 <= m < |out| && out[m].session == session ==> out[m].packet.Sealed? && out[m].packet.key == c.sendKey
  }

  ghost predicate SlotsNumbered(s: Server, l: Ledger, out: seq<Outgoing>)
    requires SessionsOk(s, l)
  {
    forall i: nat, a :: AddrAt(s.clients, i, a) ==> Numbered(s.clients[i].value, l.session[a], out)
  }

  ghost predicate SessionsKnown(l: Ledger, out: seq<Outgoing>) {
    forall m :: 0 <= m < |out| ==> out[m].session < l.sessions
  }

  /** Packet `n` is sealed with the number of earlier packets of its connection, and with their key. */
  ghost predicate InOrder(out: seq<Outgoing>, n: nat)
    requires n < |out|
  {
    && ForClient(out[n].packet) && out[n].packet.sequence == Count(out[..n], out[n].session)
    && forall m :: 0 <= m < n && out[m].session == out[n].session ==>
      out[m].packet.Sealed? && out[m].packet.key == out[n].packet.key
  }

  ghost predicate AllInOrder(out: seq<Outgoing>) {
    forall n :: 0 <= n < |out| ==> InOrder(out, n)
  }

  ghost predicate OutInv(s: Server, l: Ledger, out: seq<Outgoing>) {
    SessionsOk(s, l) && SlotsNumbered(s, l, out) && SessionsKnown(l, out) && AllInOrder(out) && PendingZero(s.pending)
  }

  lemma CountMore(out: seq<Outgoing>, x: Outgoing, session: nat)
    ensures Count(out + [x], session) == Count(out, session) + if x.session == session then 1 else 0
  {
    assert (out + [x])[..|out|] == out;
  }

  lemma {:induction false} CountNew(l: Ledger, out: seq<Outgoing>, session: nat)
    requires SessionsKnown(l, out) && l.sessions <= session
    ensures Count(out, session) == 0
  {
    if out != [] {
      CountNew(l, out[..|out| - 1], session);
    }
  }

  lemma InOrderMore(out: seq<Outgoing>, x: Outgoing)
    requires AllInOrder(out) && ForClient(x.packet) && x.packet.sequence == Count(out, x.session)
    requires forall m :: 0 <= m < |out| && out[m].session == x.session ==>
      out[m].packet.Sealed? && out[m].packet.key == x.packet.key
    ensures AllInOrder(out + [x])
  {
    hide Count, ForClient;
    var more := out + [x];
    forall n | 0 <= n < |more|
      ensures InOrder(more, n)
    {
      assert more[..n] == out[..n];
      if n < |out| {
        assert InOrder(out, n);
      } else {
        assert out[..n] == out;
      }
    }
  }

  /** The packet belongs to another connection. */
  lemma OtherNumbered(c: Connection, c': Connection, session: nat, out: seq<Outgoing>, x: Outgoing)
    requires Numbered(c, session, out) && x.session != session && c'.sequence == c.sequence && c'.sendKey == c.sendKey
    ensures Numbered(c', session, out + [x])
  {
    hide Count;
    CountMore(out, x, session);
  }

  lemma NextNumbered(c: Connection, c': Connection, out: seq<Outgoing>, x: Outgoing)
    requires Numbered(c, x.session, out) && c'.sequence == c.sequence + 1 && c'.sendKey == c.sendKey
    requires x.packet.Sealed? && x.packet.key == c.sendKey
    ensures Numbered(c', x.session, out + [x])
  {
    hide Count;
    CountMore(out, x, x.session);
  }

  lemma FirstNumbered(l: Ledger, c: Connection, out: seq<Outgoing>, x: Outgoing)
    requires SessionsKnown(l, out) && x.session == l.sessions && c.sequence == 1
    requires x.packet.Sealed? && x.packet.key == c.sendKey
    ensures Numbered(c, x.session, out + [x])
  {
    CountMore(out, x, x.session);
    CountNew(l, out, x.session);
    hide Count;
  }

  // ---------------------------------------------------------------- runs

  lemma SlotNumbered(s: Server, l: Ledger, out: seq<Outgoing>, i: nat, a: Address)
    requires SessionsOk(s, l) && SlotsNumbered(s, l, out) && AddrAt(s.clients, i, a)
    ensures i < |s.clients| && s.clients[i].Some? && s.clients[i].value.addr == a
    ensures a in l.session && l.session[a] < l.sessions && Numbered(s.clients[i].value, l.session[a], out)
  {
  }

  lemma NumberedParts(c: Connection, session: nat, out: seq<Outgoing>)
    requires Numbered(c, session, out)
    ensures c.sequence == Count(out, session) > 0
    ensures forall m :: 0 <= m < |out| && out[m].session == session ==> out[m].packet.Sealed? && out[m].packet.key == c.sendKey
  {
  }

  lemma OtherSession(s: Server, l: Ledger, i: nat, a: Address, k: nat, b: Address)
    requires SessionsOk(s, l) && AddrAt(s.clients, i, a) && AddrAt(s.clients, k, b) && i != k
    ensures a in l.session && b in l.session && l.session[a] != l.session[b]
  {
  }

  lemma CommandOut(s: Server, l: Ledger, out: seq<Outgoing>, e: Event)
    requires Inv(s) && Wf(s) && OutInv(s, l, out) && !e.Arrival? && SessionsOk(Step(s, e).server, l)
    ensures var out' := out + NewlyOut(s, l, e);
      SlotsNumbered(Step(s, e).server, l, out') && SessionsKnown(l, out') && AllInOrder(out')
  {
    var k := CommandNumbers(s, e);
    hide Inv, Wf, Step, Numbered, SessionsOk, InOrder, PutOut, AllInOrder;
    var s' := Step(s, e).server;
    if PutOut(s, e).None? {
      assert out + NewlyOut(s, l, e) == out;
      hide NewlyOut;
      forall i: nat, a | AddrAt(s'.clients, i, a)
        ensures a in l.session && Numbered(s'.clients[i].value, l.session[a], out)
      {
        SlotNumbered(s, l, out, i, a);
      }
    } else {
      var (a, d) := PutOut(s, e).value;
      assert AddrAt(s.clients, k, a);
      SlotNumbered(s, l, out, k, a);
      var c := s.clients[k].value;
      NumberedParts(c, l.session[a], out);
      assert ForClient(d) && d.key == c.sendKey && d.sequence == c.sequence;
      var x := Outgoing(l.session[a], d);
      assert NewlyOut(s, l, e) == [x];
      hide NewlyOut;
      InOrderMore(out, x);
      forall i: nat, b | AddrAt(s'.clients, i, b)
        ensures b in l.session && Numbered(s'.clients[i].value, l.session[b], out + [x])
      {
        assert AddrAt(s.clients, i, b);
        SlotNumbered(s, l, out, i, b);
        if i == k {
          NextNumbered(c, s'.clients[i].value, out, x);
        } else {
          OtherSession(s, l, i, b, k, a);
          OtherNumbered(s.clients[i].value, s'.clients[i].value, l.session[b], out, x);
        }
      }
    }
  }

  /** A slot that was taken before an arrival keeps its numbers. */
  lemma KeptNumbered(s: Server, l: Ledger, out: seq<Outgoing>, e: Event, i: nat, a: Address)
    requires Inv(s) && Wf(s) && OutInv(s, l, out) && e.Arrival? && AddrAt(Step(s, e).server.clients, i, a)
    requires AddrAt(s.clients, i, a)
    ensures var l' := Record(l, s, e);
      && a in l'.session && a in l.session && l'.session[a] == l.session[a] < l.sessions
      && Numbered(Step(s, e).server.clients[i].value, l.session[a], out)
  {
    ArrivalNumbers(s, e.addr, e.datagram);
    hide Inv, Wf, ProcessPacket, Replies, InOrder, Record, Count;
    SessionAfter(s, l, e, i, a);
    assert SameNumbers(s, Step(s, e), e.addr);
  }

  /** The client that an arrival connects, and the keep-alive for it. */
  lemma ConnectOut(s: Server, l: Ledger, e: Event, i: nat)
    requires Inv(s) && Wf(s) && SessionsOk(s, l) && PendingZero(s.pending) && Step(s, e).result.ClientConnected?
    ensures e.Arrival? && e.addr in s.pending && Record(l, s, e).sessions == l.sessions + 1
    ensures var out := NewlyOut(s, l, e);
      && |out| == 1 && out[0].session == l.sessions && ForClient(out[0].packet) && out[0].packet.sequence == 0
      && out[0].packet.key == s.pending[e.addr].sendKey
    ensures AddrAt(Step(s, e).server.clients, i, e.addr) ==>
      var c := Step(s, e).server.clients[i].value; c.sequence == 1 && c.sendKey == s.pending[e.addr].sendKey
  {
    ConnectedIsNew(s, e, i);
    ArrivalNumbers(s, e.addr, e.datagram);
    hide Inv, Wf, ProcessPacket, SessionsOk, PassedAfter;
    assert SameNumbers(s, Step(s, e), e.addr);
  }

  lemma ArrivalOut(s: Server, l: Ledger, out: seq<Outgoing>, e: Event)
    requires Inv(s) && Wf(s) && OutInv(s, l, out) && e.Arrival? && SessionsOk(Step(s, e).server, Record(l, s, e))
    ensures var l', out' := Record(l, s, e), out + NewlyOut(s, l, e);
      SlotsNumbered(Step(s, e).server, l', out') && SessionsKnown(l', out') && AllInOrder(out')
  {
    var s', l' := Step(s, e).server, Record(l, s, e);
    if Step(s, e).result.ClientConnected? {
      ConnectOut(s, l, e, 0);
      var x := NewlyOut(s, l, e)[0];
      assert NewlyOut(s, l, e) == [x];
      CountNew(l, out, l.sessions);
      hide Inv, Wf, Step, Numbered, SessionsOk, InOrder, PutOut, Record, NewlyOut, Count, ForClient;
      InOrderMore(out, x);
      forall i: nat, a | AddrAt(s'.clients, i, a)
        ensures a in l'.session && Numbered(s'.clients[i].value, l'.session[a], out + [x])
      {
        SessionAfter(s, l, e, i, a);
        if AddrAt(s.clients, i, a) {
          KeptNumbered(s, l, out, e, i, a);
          OtherNumbered(s'.clients[i].value, s'.clients[i].value, l.session[a], out, x);
        } else {
          ConnectOut(s, l, e, i);
          FirstNumbered(l, s'.clients[i].value, out, x);
        }
      }
    } else {
      NothingOut(s, l, e);
      assert out + NewlyOut(s, l, e) == out;
      hide Inv, Wf, Step, Numbered, SessionsOk, InOrder, PutOut, Record, NewlyOut, Count, ForClient;
      forall i: nat, a | AddrAt(s'.clients, i, a)
        ensures a in l'.session && Numbered(s'.clients[i].value, l'.session[a], out)
      {
        SessionAfter(s, l, e, i, a);
        KeptNumbered(s, l, out, e, i, a);
      }
    }
  }

  /** An arrival that connects nobody puts out nothing for a client. */
  lemma NothingOut(s: Server, l: Ledger, e: Event)
    requires Inv(s) && Wf(s) && e.Arrival? && !Step(s, e).result.ClientConnected?
    ensures NewlyOut(s, l, e) == [] && Record(l, s, e).sessions == l.sessions
  {
    ArrivalNumbers(s, e.addr, e.datagram);
    hide Inv, Wf, ProcessPacket, SameNumbers, PassedAfter;
  }

  lemma StepOut(s: Server, l: Ledger, out: seq<Outgoing>, e: Event)
    requires Inv(s) && Wf(s) && OutInv(s, l, out)
    ensures OutInv(Step(s, e).server, Record(l, s, e), out + NewlyOut(s, l, e))
  {
    SessionsStep(s, l, e);
    PendingZeroStep(s, e);
    if e.Arrival? {
      hide Inv, Wf, Step, SlotsNumbered, SessionsOk, Record, NewlyOut, PendingZero, AllInOrder, SessionsKnown;
      ArrivalOut(s, l, out, e);
    } else {
      assert Record(l, s, e) == l;
      hide Inv, Wf, Step, SlotsNumbered, SessionsOk, Record, NewlyOut, PendingZero, AllInOrder, SessionsKnown;
      CommandOut(s, l, out, e);
    }
  }

  lemma StartOut(start: Server)
    requires IsStart(start)
    ensures OutInv(start, BLANK, [])
  {
  }

  lemma {:induction false} RunOut(start: Server, events: seq<Event>)
    requires IsStart(start) && Inv(start)
    ensures OutInv(After(start, events).server, Records(start, events), OutgoingIn(start, events))
  {
    hide Inv, IsStart, OutInv, Record, NewlyOut, Step, Down;
    if events == [] {
      StartOut(start);
    } else {
      var n := |events| - 1;
      RunOut(start, events[..n]);
      var h := After(start, events[..n]);
      if Down(h) {
        assert OutgoingIn(start, events) == OutgoingIn(start, events[..n]);
      } else {
        StepOut(h.server, Records(start, events[..n]), OutgoingIn(start, events[..n]), events[n]);
      }
    }
  }

  /**
   In every run, the keep-alives, payloads and the farewell of one connection are sealed with
   one key and numbered 0, 1, 2 and so on: packet `n` carries the number of packets put out
   for its connection before it.
   */
  lemma PacketsAreNumbered(start: Server, events: seq<Event>, n: nat)
    requires IsStart(start) && Inv(start) && n < |OutgoingIn(start, events)|
    ensures var out := OutgoingIn(start, events);
      && out[n].packet.Sealed? && out[n].packet.sequence == Count(out[..n], out[n].session)
      && forall m :: 0 <= m < n && out[m].session == out[n].session ==>
        && out[m].packet.Sealed? && out[m].packet.key == out[n].packet.key
        && out[m].packet.sequence < out[n].packet.sequence
  {
    hide Inv, IsStart, After, Records, OutgoingIn, SlotsNumbered, SessionsOk, SessionsKnown, PendingZero, Count;
    RunOut(start, events);
    var out := OutgoingIn(start, events);
    assert InOrder(out, n);
    forall m | 0 <= m < n && out[m].session == out[n].session
      ensures out[m].packet.sequence < out[n].packet.sequence
    {
      assert InOrder(out, m);
      CountGrows(out, m, n);
    }
  }

  lemma {:induction false} CountGrows(out: seq<Outgoing>, m: nat, n: nat)
    requires m < n <= |out|
    ensures Count(out[..m], out[m].session) < Count(out[..n], out[m].session)
  {
    assert out[..n][..n - 1] == out[..n - 1];
    if m < n - 1 {
      CountGrows(out, m, n - 1);
    }
  }

  /** In every run, a connection has used exactly the sequences below the number of its packets. */
  lemma SequencesUsed(start: Server, events: seq<Event>, session: nat, q: nat)
    requires IsStart(start) && Inv(start)
    ensures Used(OutgoingIn(start, events), session, q) <==> q < Count(OutgoingIn(start, events), session)
  {
    hide Inv, IsStart, After, Records, OutgoingIn, SlotsNumbered, SessionsOk, SessionsKnown, PendingZero, Count, Used, AllInOrder;
    RunOut(start, events);
    UsedIff(OutgoingIn(start, events), session, q);
  }

  ghost predicate Used(out: seq<Outgoing>, session: nat, q: nat) {
    exists m :: 0 <= m < |out| && out[m].session == session && out[m].packet.Sealed? && out[m].packet.sequence == q
  }

  lemma {:induction false} UsedIff(out: seq<Outgoing>, session: nat, q: nat)
    requires AllInOrder(out)
    ensures Used(out, session, q) <==> q < Count(out, session)
  {
    if out != [] {
      var n := |out| - 1;
      assert InOrder(out, n);
      InOrderLess(out);
      UsedIff(out[..n], session, q);
      hide Count, InOrder, AllInOrder;
      assert out[..n][..] == out[..n];
      CountLast(out, session);
      if Used(out, session, q) && !(out[n].session == session && out[n].packet.sequence == q) {
        var m :| 0 <= m < |out| && out[m].session == session && out[m].packet.Sealed? && out[m].packet.sequence == q;
        assert out[..n][m] == out[m];
      }
    }
  }

  lemma CountLast(out: seq<Outgoing>, session: nat)
    requires out != []
    ensures var n := |out| - 1;
      Count(out, session) == Count(out[..n], session) + if out[n].session == session then 1 else 0
  {
  }

  lemma InOrderLess(out: seq<Outgoing>)
    requires AllInOrder(out) && out != []
    ensures AllInOrder(out[..|out| - 1])
  {
    hide Count, ForClient;
    var less := out[..|out| - 1];
    forall n | 0 <= n < |less|
      ensures InOrder(less, n)
    {
      assert InOrder(out, n);
      assert less[..n] == out[..n];
    }
  }

  /** In every run, the next sequence of a connected client is the number of packets put out for it; it is not zero. */
  lemma NextSequence(start: Server, events: seq<Event>, i: nat)
    requires IsStart(start) && Inv(start)
    ensures var s := After(start, events).server;
      i < |s.clients| && s.clients[i].Some? ==>
        var a := s.clients[i].value.addr;
        && a in Records(start, events).session
        && s.clients[i].value.sequence == Count(OutgoingIn(start, events), Records(start, events).session[a]) > 0
  {
    hide Inv, IsStart, After, Records, OutgoingIn, SessionsKnown, PendingZero, Count, AllInOrder;
    RunOut(start, events);
    var s := After(start, events).server;
    if i < |s.clients| && s.clients[i].Some? {
      assert AddrAt(s.clients, i, s.clients[i].value.addr);
    }
  }
}
