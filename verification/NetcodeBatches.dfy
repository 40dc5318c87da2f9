/**
 Payloads that are generated in a row and arrive in order (renetcode/src/client.rs,
 renetcode/src/server.rs): all of them reach the application, in both directions.
 */
module NetcodeBatches {
  import opened Common
  import opened NetcodePacket
  import S = NetcodeServer
  import SR = ServerRuns
  import ST = ServerTimeouts
  import C = NetcodeClient
  import R = Replay

  ghost predicate Short(payloads: seq<seq<byte>>) {
    forall j :: 0 <= j < |payloads| ==> |payloads[j]| <= MAX_PAYLOAD_BYTES
  }

  /** The window has let through only sequences below `q`. */
  ghost predicate Below(w: R.Window, q: nat) {
    exists accepted :: R.Inv(w, accepted) && AllBelow(accepted, q)
  }

  ghost predicate AllBelow(accepted: set<nat>, q: nat) {
    forall x :: x in accepted ==> x < q
  }

  lemma NewBelow(q: nat)
    ensures Below(R.New(), q)
  {
    R.NewInv();
    assert R.Inv(R.New(), {});
  }

  /** The next sequence passes. */
  lemma NextPasses(w: R.Window, q: nat)
    requires Below(w, q) && q < R.WORD - R.SIZE
    ensures R.Wf(w) && !R.Seen(w, q) && Below(R.Advance(w, q), q + 1)
  {
    var accepted :| R.Inv(w, accepted) && AllBelow(accepted, q);
    assert R.Wf(w) && w.mostRecent < q + R.SIZE;
    R.AnswerIsExactIff(w, accepted, q);
    hide R.Inv, R.Seen;
    R.AdvanceInv(w, accepted, q);
    assert R.Inv(R.Advance(w, q), accepted + {q}) && AllBelow(accepted + {q}, q + 1);
  }

  /** Packets with the payloads and with sequences from `q` on. */
  ghost function Sealings(key: Key, protocolId: nat, q: nat, payloads: seq<seq<byte>>): (ds: seq<Datagram>)
    ensures |ds| == |payloads|
  {
    seq(|payloads|, j requires 0 <= j < |payloads| => Sealed(key, protocolId, q + j, Payload(payloads[j])))
  }

  lemma SealingsMore(key: Key, protocolId: nat, q: nat, payloads: seq<seq<byte>>, p: seq<byte>)
    ensures Sealings(key, protocolId, q, payloads + [p]) ==
            Sealings(key, protocolId, q, payloads) + [Sealed(key, protocolId, q + |payloads|, Payload(p))]
  {
  }

  lemma SplitLast<T>(s: seq<T>)
    requires s != []
    ensures s == s[..|s| - 1] + [s[|s| - 1]]
  {
  }

  // ---------------------------------------------------------------- to the client

  /** The server generates the payloads in a row. */
  ghost function ServerSends(s: S.Server, id: nat, payloads: seq<seq<byte>>): (S.Server, seq<Datagram>) {
    if payloads == [] then (s, [])
    else
      var n := |payloads| - 1;
      var (s1, ds) := ServerSends(s, id, payloads[..n]);
      var (s2, r) := S.GeneratePayload(s1, id, payloads[n]);
      (s2, if r.Ok? then ds + [r.value.1] else ds)
  }

  /** The client processes datagrams in order. */
  ghost function ClientTakes(c: C.Client, ds: seq<Datagram>): (r: (C.Client, seq<C.Received>))
    requires R.Wf(c.window)
    ensures R.Wf(r.0.window)
  {
    if ds == [] then (c, [])
    else
      var n := |ds| - 1;
      var (c1, got) := ClientTakes(c, ds[..n]);
      var (c2, r) := C.ProcessPacket(c1, ds[n]);
      (c2, got + [r])
  }

  /** Slot `i` is the one of client `id`, with key `key` and next sequence `q`. */
  ghost predicate SlotIs(s: S.Server, i: nat, id: nat, key: Key, q: nat) {
    && i < |s.clients| && s.clients[i].Some? && S.SlotById(s.clients, id) == i
    && s.clients[i].value.sendKey == key && s.clients[i].value.sequence == q
  }

  lemma SendsOne(s: S.Server, i: nat, id: nat, key: Key, q: nat, p: seq<byte>)
    requires SlotIs(s, i, id, key, q) && |p| <= MAX_PAYLOAD_BYTES && q > 0
    ensures var (s', r) := S.GeneratePayload(s, id, p);
      && SlotIs(s', i, id, key, q + 1) && s'.protocolId == s.protocolId
      && r == Ok((s.clients[i].value.addr, Sealed(key, s.protocolId, q, Payload(p))))
  {
    var s' := S.GeneratePayload(s, id, p).0;
    SR.IdFound(s.clients, id);
    ST.SameIdSlot(s.clients, s'.clients, i, id);
    hide S.SlotById;
  }

  lemma {:induction false} SendsInRow(s: S.Server, i: nat, id: nat, key: Key, q: nat, payloads: seq<seq<byte>>)
    requires SlotIs(s, i, id, key, q) && Short(payloads) && q > 0
    ensures var (s', ds) := ServerSends(s, id, payloads);
      && SlotIs(s', i, id, key, q + |payloads|) && s'.protocolId == s.protocolId
      && ds == Sealings(key, s.protocolId, q, payloads)
  {
    hide SlotIs, S.GeneratePayload, Sealings;
    if payloads == [] {
      assert Sealings(key, s.protocolId, q, []) == [];
    } else {
      var n := |payloads| - 1;
      SendsInRow(s, i, id, key, q, payloads[..n]);
      SendsOne(ServerSends(s, id, payloads[..n]).0, i, id, key, q + n, payloads[n]);
      SplitLast(payloads);
      SealingsMore(key, s.protocolId, q, payloads[..n], payloads[n]);
    }
  }

  lemma TakesOne(c: C.Client, q: nat, p: seq<byte>)
    requires c.state.Connected? && Below(c.window, q) && q < R.WORD - R.SIZE
    ensures R.Wf(c.window)
    ensures var (c', r) := C.ProcessPacket(c, Sealed(c.token.serverToClientKey, c.token.protocolId, q, Payload(p)));
      && r == C.PayloadReceived(p) && c'.state.Connected? && c'.token == c.token && Below(c'.window, q + 1)
  {
    NextPasses(c.window, q);
    hide Below, R.Seen, R.Advance;
  }

  lemma BelowWf(w: R.Window, q: nat)
    requires Below(w, q)
    ensures R.Wf(w)
  {
  }

  ghost function AllReceived(payloads: seq<seq<byte>>): seq<C.Received> {
    seq(|payloads|, j requires 0 <= j < |payloads| => C.PayloadReceived(payloads[j]))
  }

  lemma {:induction false} TakesInRow(c: C.Client, q: nat, payloads: seq<seq<byte>>)
    requires c.state.Connected? && Below(c.window, q) && q + |payloads| <= R.WORD - R.SIZE
    ensures R.Wf(c.window)
    ensures var (c', got) := ClientTakes(c, Sealings(c.token.serverToClientKey, c.token.protocolId, q, payloads));
      c'.state.Connected? && c'.token == c.token && Below(c'.window, q + |payloads|) && got == AllReceived(payloads)
  {
    hide Below, C.ProcessPacket, R.Wf;
    BelowWf(c.window, q);
    if payloads != [] {
      var n := |payloads| - 1;
      TakesInRow(c, q, payloads[..n]);
      SplitLast(payloads);
      SealingsMore(c.token.serverToClientKey, c.token.protocolId, q, payloads[..n], payloads[n]);
      var ds := Sealings(c.token.serverToClientKey, c.token.protocolId, q, payloads);
      assert ds[..n] == Sealings(c.token.serverToClientKey, c.token.protocolId, q, payloads[..n]);
      TakesOne(ClientTakes(c, ds[..n]).0, q + n, payloads[n]);
    }
  }

  /**
   Any number of payloads that a server generates in a row for a connected client, and that
   arrive in order, reach the client's application, all of them and in order.
   */
  lemma ServerBatchArrives(s: S.Server, i: nat, c: C.Client, payloads: seq<seq<byte>>)
    requires i < |s.clients| && s.clients[i].Some? && S.SlotById(s.clients, s.clients[i].value.clientId) == i
    requires Short(payloads) && c.state.Connected? && c.token.protocolId == s.protocolId
    requires var k := s.clients[i].value;
      && k.sendKey == c.token.serverToClientKey && 0 < k.sequence && k.sequence + |payloads| <= R.WORD - R.SIZE
      && Below(c.window, k.sequence)
    ensures R.Wf(c.window)
    ensures var ds := ServerSends(s, s.clients[i].value.clientId, payloads).1;
      |ds| == |payloads| && ClientTakes(c, ds).1 == AllReceived(payloads)
  {
    hide ServerSends, ClientTakes, Below, R.Wf, S.SlotById;
    var k := s.clients[i].value;
    SendsInRow(s, i, k.clientId, k.sendKey, k.sequence, payloads);
    TakesInRow(c, k.sequence, payloads);
  }

  /** Everything that has arrived under the server's key has a sequence below `q`. */
  ghost predicate ArrivedBelow(t: C.ConnectToken, events: seq<C.Event>, q: nat) {
    forall n :: 0 <= n < |events| && events[n].Arrival? && Authentic(events[n].datagram, t.protocolId, t.serverToClientKey) ==>
      events[n].datagram.sequence < q
  }

  lemma StepBelow(c: C.Client, e: C.Event, q: nat)
    requires C.Wf(c) && Below(c.window, q) && q <= R.WORD
    requires e.Arrival? && Authentic(e.datagram, c.token.protocolId, c.token.serverToClientKey) ==> e.datagram.sequence < q
    ensures Below(C.Step(c, e).client.window, q)
  {
    var w, w' := c.window, C.Step(c, e).client.window;
    var accepted :| R.Inv(w, accepted) && AllBelow(accepted, q);
    hide R.Inv, R.Seen, R.Advance;
    if w' != w {
      assert e.Arrival? && w' == R.Advance(w, e.datagram.sequence) && !R.Seen(w, e.datagram.sequence);
      R.AdvanceInv(w, accepted, e.datagram.sequence);
      assert AllBelow(accepted + {e.datagram.sequence}, q);
    }
  }

  /** In every run of a client, its window has let through no sequence that has not arrived. */
  lemma {:induction false} WindowBelow(now: Time, t: C.ConnectToken, events: seq<C.Event>, q: nat)
    requires C.WfToken(t) && ArrivedBelow(t, events, q) && q <= R.WORD
    ensures Below(C.After(now, t, events).client.window, q)
  {
    hide C.Step, Below;
    if events == [] {
      NewBelow(q);
    } else {
      var n := |events| - 1;
      WindowBelow(now, t, events[..n], q);
      C.AttemptsFollowToken(now, t, events[..n]);
      StepBelow(C.After(now, t, events[..n]).client, events[n], q);
    }
  }

  // ---------------------------------------------------------------- to the server

  ghost function ClientSends(c: C.Client, payloads: seq<seq<byte>>): (C.Client, seq<Datagram>) {
    if payloads == [] then (c, [])
    else
      var n := |payloads| - 1;
      var (c1, ds) := ClientSends(c, payloads[..n]);
      var (c2, r) := C.GeneratePayload(c1, payloads[n]);
      (c2, if r.Ok? then ds + [r.value] else ds)
  }

  ghost function ServerTakes(s: S.Server, a: Address, ds: seq<Datagram>): (r: (S.Server, seq<S.ServerResult>))
    requires SR.Inv(s)
    ensures SR.Inv(r.0)
  {
    if ds == [] then (s, [])
    else
      var n := |ds| - 1;
      var (s1, got) := ServerTakes(s, a, ds[..n]);
      SR.InvWf(s1);
      SR.ProcessPacketInv(s1, a, ds[n]);
      var o := S.ProcessPacket(s1, a, ds[n]);
      (o.server, got + [o.result])
  }

  lemma {:induction false} ClientSendsInRow(c: C.Client, payloads: seq<seq<byte>>)
    requires c.state.Connected? && Short(payloads) && c.sequence > 0
    ensures var (c', ds) := ClientSends(c, payloads);
      && c'.state.Connected? && c'.sequence == c.sequence + |payloads| && c'.token == c.token
      && ds == Sealings(c.token.clientToServerKey, c.token.protocolId, c.sequence, payloads)
  {
    hide Sealings;
    if payloads == [] {
      assert Sealings(c.token.clientToServerKey, c.token.protocolId, c.sequence, []) == [];
    } else {
      var n := |payloads| - 1;
      ClientSendsInRow(c, payloads[..n]);
      SplitLast(payloads);
      SealingsMore(c.token.clientToServerKey, c.token.protocolId, c.sequence, payloads[..n], payloads[n]);
    }
  }

  /** The client at `a` is `id`, sends with `key`, and nothing from sequence `q` on has arrived. */
  ghost predicate Listens(s: S.Server, i: nat, a: Address, id: nat, key: Key, q: nat) {
    && SR.AddrAt(s.clients, i, a)
    && var k := s.clients[i].value;
      k.clientId == id && k.receiveKey == key && Below(k.window, q)
  }

  lemma ServerTakesOne(s: S.Server, i: nat, a: Address, id: nat, key: Key, q: nat, p: seq<byte>)
    requires SR.Inv(s) && Listens(s, i, a, id, key, q) && q < R.WORD - R.SIZE
    ensures S.Wf(s)
    ensures var o := S.ProcessPacket(s, a, Sealed(key, s.protocolId, q, Payload(p)));
      o.result == S.PayloadFrom(id, p) && Listens(o.server, i, a, id, key, q + 1) && o.server.protocolId == s.protocolId
  {
    SR.InvWf(s);
    SR.AddrFound(s.clients, a);
    assert SR.AddrAt(s.clients, S.SlotByAddr(s.clients, a), a);
    assert S.SlotByAddr(s.clients, a) == i && s.clients[i].value.state.Connected?;
    hide SR.Inv, S.SlotByAddr, Below, R.Seen, R.Advance;
    NextPasses(s.clients[i].value.window, q);
  }

  ghost function AllFrom(id: nat, payloads: seq<seq<byte>>): seq<S.ServerResult> {
    seq(|payloads|, j requires 0 <= j < |payloads| => S.PayloadFrom(id, payloads[j]))
  }

  lemma {:induction false} ServerTakesInRow(
    s: S.Server, i: nat, a: Address, id: nat, key: Key, q: nat, payloads: seq<seq<byte>>)
    requires SR.Inv(s) && Listens(s, i, a, id, key, q) && q + |payloads| <= R.WORD - R.SIZE
    ensures var (s', got) := ServerTakes(s, a, Sealings(key, s.protocolId, q, payloads));
      && Listens(s', i, a, id, key, q + |payloads|) && s'.protocolId == s.protocolId
      && got == AllFrom(id, payloads)
  {
    hide Listens, S.ProcessPacket, SR.Inv;
    if payloads != [] {
      var n := |payloads| - 1;
      ServerTakesInRow(s, i, a, id, key, q, payloads[..n]);
      SplitLast(payloads);
      SealingsMore(key, s.protocolId, q, payloads[..n], payloads[n]);
      var ds := Sealings(key, s.protocolId, q, payloads);
      assert ds[..n] == Sealings(key, s.protocolId, q, payloads[..n]);
      ServerTakesOne(ServerTakes(s, a, ds[..n]).0, i, a, id, key, q + n, payloads[n]);
    }
  }

  /** And those of a connected client reach the server's application. */
  lemma ClientBatchArrives(c: C.Client, s: S.Server, i: nat, payloads: seq<seq<byte>>)
    requires SR.Inv(s) && i < |s.clients| && s.clients[i].Some?
    requires Short(payloads) && c.state.Connected? && c.token.protocolId == s.protocolId
    requires 0 < c.sequence && c.sequence + |payloads| <= R.WORD - R.SIZE
    requires var k := s.clients[i].value; k.receiveKey == c.token.clientToServerKey && Below(k.window, c.sequence)
    ensures var k := s.clients[i].value;
      var ds := ClientSends(c, payloads).1;
      |ds| == |payloads| && ServerTakes(s, k.addr, ds).1 == AllFrom(k.clientId, payloads)
  {
    hide ClientSends, ServerTakes, Below, SR.Inv;
    var k := s.clients[i].value;
    ClientSendsInRow(c, payloads);
    ServerTakesInRow(s, i, k.addr, k.clientId, k.receiveKey, c.sequence, payloads);
  }
}
