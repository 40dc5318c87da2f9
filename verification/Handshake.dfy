/**
 The connection handshake under ideal authenticated encryption: a server and the client of
 one connect token over a network that an attacker controls, except that the attacker
 cannot seal packets with the token's keys (renetcode/src/client.rs, renetcode/src/server.rs).
 */
module Handshake {
  import opened Common
  import opened NetcodePacket
  import S = NetcodeServer
  import SR = ServerRuns
  import C = NetcodeClient
  import P = ServerPayloads
  import R = Replay

  /** A connection for which the server has reported `ClientConnected`, and the datagram upon which it did. */
  datatype Accepted = Accepted(connection: S.Connection, answer: Datagram)

  /**
   `net`: every packet the two have sent; `byClient`: those of the client; `arrived`: every
   datagram that has arrived at one of the two.
   */
  datatype World = World(
    server: S.Server,
    client: C.Client,
    net: set<Datagram>,
    byClient: set<Datagram>,
    arrived: set<Datagram>,
    accepted: set<Accepted>,
    ledger: P.Ledger,
    serverDown: bool,
    clientDown: bool)

  /** Sealed with one of the token's keys. */
  predicate Secret(t: C.ConnectToken, d: Datagram) {
    d.Sealed? && (d.key == t.serverToClientKey || d.key == t.clientToServerKey)
  }

  /**
   What can arrive: anything sent before, in any order and number, and anything the attacker
   can make. A sequence is a 64-bit word.
   */
  ghost predicate CanArrive(w: World, d: Datagram) {
    (d in w.net || !Secret(w.client.token, d)) && (d.Sealed? ==> d.sequence < R.WORD)
  }

  ghost predicate Initial(w: World) {
    && SR.IsStart(w.server)
    && (exists now, t :: C.WfToken(t) && t.serverToClientKey != t.clientToServerKey && w.client == C.New(now, t))
    && w.net == {} && w.byClient == {} && w.arrived == {} && w.accepted == {} && w.ledger == P.BLANK
    && !w.serverDown && !w.clientDown
  }

  /** The packet in a result of the server. */
  function SentBy(r: S.ServerResult): set<Datagram> {
    match r
    case PacketToSend(_, d) => {d}
    case ClientConnected(_, _, _, d) => {d}
    case ClientDisconnected(_, _, Some(d)) => {d}
    case _ => {}
  }

  /** The packet that `generate_payload_packet` returns. */
  function PayloadSent(s: S.Server, e: SR.Event): set<Datagram> {
    match e
    case Send(id, p) =>
      var r := S.GeneratePayload(s, id, p).1;
      if r.Ok? then {r.value.1} else {}
    case _ => {}
  }

  /** The server connects a client in this step. */
  ghost predicate Connects(s: S.Server, e: SR.Event)
    requires S.Wf(s)
  {
    SR.Step(s, e).result.ClientConnected? && e.Arrival? && e.addr in s.pending
  }

  ghost function ServerActs(w: World, e: SR.Event): World
    requires S.Wf(w.server)
  {
    var o := SR.Step(w.server, e);
    var connected := if Connects(w.server, e) then {Accepted(w.server.pending[e.addr], e.datagram)} else {};
    w.(server := o.server,
       net := w.net + SentBy(o.result) + PayloadSent(w.server, e),
       arrived := w.arrived + if e.Arrival? then {e.datagram} else {},
       accepted := w.accepted + connected,
       ledger := P.Record(w.ledger, w.server, e),
       serverDown := o.result.ServerPanic?)
  }

  ghost function ClientActs(w: World, e: C.Event): World
    requires C.Wf(w.client)
  {
    var o := C.Step(w.client, e);
    var sent := if o.sent.Some? then {o.sent.value} else {};
    w.(client := o.client,
       net := w.net + sent,
       byClient := w.byClient + sent,
       arrived := w.arrived + if e.Arrival? then {e.datagram} else {},
       clientDown := o.panicked)
  }

  ghost predicate ServerNext(w: World, w': World, e: SR.Event) {
    !w.serverDown && S.Wf(w.server) && (e.Arrival? ==> CanArrive(w, e.datagram)) && w' == ServerActs(w, e)
  }

  ghost predicate ClientNext(w: World, w': World, e: C.Event) {
    !w.clientDown && C.Wf(w.client) && (e.Arrival? ==> CanArrive(w, e.datagram)) && w' == ClientActs(w, e)
  }

  /** One of the two acts, unless it has panicked. */
  ghost predicate Next(w: World, w': World) {
    (exists e :: ServerNext(w, w', e)) || (exists e :: ClientNext(w, w', e))
  }

  ghost predicate IsRun(run: seq<World>) {
    |run| > 0 && Initial(run[0]) && forall i :: 0 <= i < |run| - 1 ==> Next(run[i], run[i + 1])
  }

  // ---------------------------------------------------------------- the invariant

  ghost predicate AcceptedKey(accepted: set<Accepted>, key: Key) {
    exists c :: c in accepted && c.connection.sendKey == key
  }

  /** Every connected client's keys belong to a reported connection. */
  ghost predicate SlotsAccepted(clients: SR.Slots, accepted: set<Accepted>) {
    forall i :: 0 <= i < |clients| && clients[i].Some? ==> AcceptedKey(accepted, clients[i].value.sendKey)
  }

  /** What is in the network under the token's keys was put there by its holders. */
  ghost predicate NetOk(w: World) {
    && (forall d :: d in w.net && d.Sealed? && d.key == w.client.token.serverToClientKey && d.body.KeepAlive? ==>
         AcceptedKey(w.accepted, w.client.token.serverToClientKey))
    && (forall d :: d in w.net && d.Sealed? && d.key == w.client.token.clientToServerKey && d.body.Response? ==>
         d in w.byClient)
    && (forall d :: d in w.net ==> Sound(d))
  }

  /** The answer upon which a connection under the token's key was reported is the client's own. */
  ghost predicate Answered(w: World, c: Accepted) {
    && c.answer in w.byClient && c.answer.Sealed? && c.answer.key == w.client.token.clientToServerKey
    && S.Answers(c.answer.body, w.server.challengeKey)
  }

  ghost predicate AnswersOk(w: World) {
    forall c :: c in w.accepted && c.connection.receiveKey == w.client.token.clientToServerKey ==> Answered(w, c)
  }

  ghost predicate DownOk(w: World) {
    w.serverDown || w.clientDown ==> exists d :: d in w.arrived && !Sound(d)
  }

  ghost predicate Inv(w: World) {
    && SR.Inv(w.server) && C.Wf(w.client)
    && w.client.token.serverToClientKey != w.client.token.clientToServerKey
    && SlotsAccepted(w.server.clients, w.accepted)
    && NetOk(w) && AnswersOk(w) && DownOk(w)
    && (w.client.state.Connected? ==> AcceptedKey(w.accepted, w.client.token.serverToClientKey))
  }

  // ---------------------------------------------------------------- what the parties do

  ghost predicate SlotKey(clients: SR.Slots, i: nat, key: Key) {
    i < |clients| && clients[i].Some? && clients[i].value.sendKey == key
  }

  /** Keys get into slots only by connecting. */
  ghost predicate KeysOk(s: S.Server, e: SR.Event, o: S.Outcome)
    requires S.Wf(s)
  {
    && |o.server.clients| == |s.clients|
    && (forall i, k :: SlotKey(o.server.clients, i, k) ==>
         SlotKey(s.clients, i, k) || (Connects(s, e) && k == s.pending[e.addr].sendKey))
  }

  lemma RequestKeeps(s: S.Server, a: Address, d: Datagram)
    requires d.Request? && |s.entries| > 0
    ensures var o := S.HandleRequest(s, a, d);
      && o.server.clients == s.clients && !o.result.ClientConnected?
      && (forall x :: x in SentBy(o.result) ==> Sound(x))
      && forall x :: x in SentBy(o.result) && x.Sealed? ==> x.body.ConnectionDenied? || x.body.Challenge?
  {
    hide S.FindOrAdd, S.SlotById, S.SlotByAddr, S.RequestError;
  }

  /** What a packet from a pending client leads to. */
  lemma PendingActs(s: S.Server, a: Address, d: Datagram)
    requires S.Wf(s) && a in s.pending
    ensures var o := S.FromPending(s, a, d);
      && |o.server.clients| == |s.clients|
      && (forall i, k :: SlotKey(o.server.clients, i, k) ==>
           SlotKey(s.clients, i, k) || (o.result.ClientConnected? && k == s.pending[a].sendKey))
      && (forall x :: x in SentBy(o.result) ==> Sound(x))
      && (forall x :: x in SentBy(o.result) && x.Sealed? ==>
           || x.body.ConnectionDenied? || x.body.Challenge?
           || (o.result.ClientConnected? && x.body.KeepAlive? && x.key == s.pending[a].sendKey))
  {
    hide R.Seen, S.SlotById, S.HandleRequest;
    var p := s.pending[a];
    if d.Request? {
      RequestKeeps(s.(pending := s.pending[a := p.(lastReceived := s.now)]), a, d);
    }
  }

  lemma ConnectedActs(s: S.Server, i: nat, d: Datagram)
    requires S.Wf(s) && i < |s.clients| && s.clients[i].Some?
    ensures var o := S.FromConnected(s, i, d);
      && |o.server.clients| == |s.clients| && !o.result.ClientConnected? && SentBy(o.result) == {}
      && (forall j, k :: SlotKey(o.server.clients, j, k) ==> SlotKey(s.clients, j, k))
  {
    hide R.Seen;
  }

  /** The server seals keep-alives and payloads only for clients it has connected, and never sends a response. */
  ghost predicate SendsOk(s: S.Server, e: SR.Event, x: Datagram)
    requires S.Wf(s)
  {
    && Sound(x)
    && (x.Sealed? ==>
         && !x.body.Response?
         && (x.body.KeepAlive? ==>
              (exists i :: SlotKey(s.clients, i, x.key)) || (Connects(s, e) && x.key == s.pending[e.addr].sendKey))
         && (x.body.Payload? ==> exists i :: SlotKey(s.clients, i, x.key)))
  }

  lemma ArrivalActs(s: S.Server, a: Address, d: Datagram)
    requires S.Wf(s)
    ensures var e := SR.Arrival(a, d);
      KeysOk(s, e, SR.Step(s, e)) && forall x :: x in SentBy(SR.Step(s, e).result) ==> SendsOk(s, e, x)
  {
    SR.AddrFound(s.clients, a);
    hide S.FromPending, S.FromConnected, S.HandleRequest, S.SlotByAddr;
    var i := S.SlotByAddr(s.clients, a);
    if d.Malformed? {
    } else if i < |s.clients| {
      ConnectedActs(s, i, d);
    } else if a in s.pending {
      PendingActs(s, a, d);
    } else if d.Request? {
      RequestKeeps(s, a, d);
    }
  }

  lemma CommandActs(s: S.Server, e: SR.Event)
    requires S.Wf(s) && !e.Arrival?
    ensures KeysOk(s, e, SR.Step(s, e))
    ensures forall x :: x in SentBy(SR.Step(s, e).result) + PayloadSent(s, e) ==> SendsOk(s, e, x)
  {
    if e.Poll? || e.Kick? || e.Send? {
      var i := S.SlotById(s.clients, e.clientId);
      if i < |s.clients| {
        assert SlotKey(s.clients, i, s.clients[i].value.sendKey);
      }
    }
  }

  lemma ServerActsOk(s: S.Server, e: SR.Event)
    requires S.Wf(s)
    ensures KeysOk(s, e, SR.Step(s, e))
    ensures forall x :: x in SentBy(SR.Step(s, e).result) + PayloadSent(s, e) ==> SendsOk(s, e, x)
  {
    hide KeysOk, SendsOk;
    if e.Arrival? {
      ArrivalActs(s, e.addr, e.datagram);
    } else {
      CommandActs(s, e);
    }
  }

  // ---------------------------------------------------------------- steps

  lemma AcceptedMore(accepted: set<Accepted>, more: set<Accepted>, key: Key)
    requires AcceptedKey(accepted, key)
    ensures AcceptedKey(accepted + more, key)
  {
    var c :| c in accepted && c.connection.sendKey == key;
    assert c in accepted + more;
  }

  lemma ServerSlots(w: World, e: SR.Event)
    requires Inv(w) && S.Wf(w.server)
    ensures SlotsAccepted(ServerActs(w, e).server.clients, ServerActs(w, e).accepted)
  {
    ServerActsOk(w.server, e);
    var w' := ServerActs(w, e);
    hide SR.Step, SR.Inv, NetOk;
    forall i | 0 <= i < |w'.server.clients| && w'.server.clients[i].Some?
      ensures AcceptedKey(w'.accepted, w'.server.clients[i].value.sendKey)
    {
      SlotIsAccepted(w, e, i);
    }
  }

  lemma SlotIsAccepted(w: World, e: SR.Event, i: nat)
    requires S.Wf(w.server) && SlotsAccepted(w.server.clients, w.accepted)
    requires KeysOk(w.server, e, SR.Step(w.server, e))
    requires var clients := ServerActs(w, e).server.clients; i < |clients| && clients[i].Some?
    ensures AcceptedKey(ServerActs(w, e).accepted, ServerActs(w, e).server.clients[i].value.sendKey)
  {
    hide SR.Step;
    var w' := ServerActs(w, e);
    var key := w'.server.clients[i].value.sendKey;
    assert SlotKey(w'.server.clients, i, key);
    if SlotKey(w.server.clients, i, key) {
      AcceptedMore(w.accepted, w'.accepted, key);
      assert w.accepted + w'.accepted == w'.accepted;
    } else {
      assert Accepted(w.server.pending[e.addr], e.datagram) in w'.accepted;
    }
  }

  /** A keep-alive that the server seals belongs to a reported connection. */
  lemma SentIsAccepted(w: World, e: SR.Event, x: Datagram)
    requires S.Wf(w.server) && SlotsAccepted(w.server.clients, w.accepted)
    requires SendsOk(w.server, e, x) && x.Sealed? && x.body.KeepAlive?
    ensures AcceptedKey(ServerActs(w, e).accepted, x.key)
  {
    hide SR.Step;
    var w' := ServerActs(w, e);
    if Connects(w.server, e) && x.key == w.server.pending[e.addr].sendKey {
      assert Accepted(w.server.pending[e.addr], e.datagram) in w'.accepted;
    } else {
      var i :| SlotKey(w.server.clients, i, x.key);
      AcceptedMore(w.accepted, w'.accepted, x.key);
      assert w.accepted + w'.accepted == w'.accepted;
    }
  }

  lemma ServerNet(w: World, e: SR.Event)
    requires Inv(w) && S.Wf(w.server)
    ensures NetOk(ServerActs(w, e))
  {
    hide SR.Step, SR.Inv, AcceptedKey, SlotsAccepted, AnswersOk, DownOk, S.Wf, C.Wf, KeysOk, Connects, SentBy, PayloadSent,
      P.Record;
    ServerActsOk(w.server, e);
    var w' := ServerActs(w, e);
    assert w.accepted + w'.accepted == w'.accepted;
    var key := w.client.token.serverToClientKey;
    forall d | d in w'.net
      ensures d.Sealed? && d.key == key && d.body.KeepAlive? ==> AcceptedKey(w'.accepted, key)
      ensures d.Sealed? && d.key == w.client.token.clientToServerKey && d.body.Response? ==> d in w'.byClient
      ensures Sound(d)
    {
      if d in w.net {
        if d.Sealed? && d.key == key && d.body.KeepAlive? {
          AcceptedMore(w.accepted, w'.accepted, key);
        }
      } else {
        assert d in SentBy(SR.Step(w.server, e).result) + PayloadSent(w.server, e);
        if d.Sealed? && d.body.KeepAlive? {
          SentIsAccepted(w, e, d);
        }
      }
    }
  }

  /** What makes the server report a client as connected. */
  lemma ConnectingAnswer(s: S.Server, e: SR.Event)
    requires SR.Inv(s) && S.Wf(s) && Connects(s, e)
    ensures e.datagram.Sealed? && e.datagram.key == s.pending[e.addr].receiveKey
    ensures S.Answers(e.datagram.body, s.challengeKey)
  {
    SR.ConnectsIffPromotes(s, e.addr, e.datagram);
    hide SR.Step, SR.Inv, R.Seen;
  }

  lemma StepKeepsKeys(s: S.Server, e: SR.Event)
    requires S.Wf(s)
    ensures SR.Step(s, e).server.challengeKey == s.challengeKey && SR.Step(s, e).server.protocolId == s.protocolId
  {
    hide R.Seen, S.SlotByAddr, S.SlotById, S.FreeSlot, S.FindOrAdd, S.RequestError;
  }

  lemma ServerAnswers(w: World, e: SR.Event)
    requires Inv(w) && S.Wf(w.server) && (e.Arrival? ==> CanArrive(w, e.datagram))
    ensures AnswersOk(ServerActs(w, e))
  {
    hide SR.Step, SR.Inv, SlotsAccepted, DownOk, P.Record;
    StepKeepsKeys(w.server, e);
    var w' := ServerActs(w, e);
    forall c | c in w'.accepted && c.connection.receiveKey == w.client.token.clientToServerKey
      ensures Answered(w', c)
    {
      if c !in w.accepted {
        ConnectingAnswer(w.server, e);
      }
    }
  }

  lemma ServerDown(w: World, e: SR.Event)
    requires Inv(w) && !w.serverDown && S.Wf(w.server)
    ensures DownOk(ServerActs(w, e))
  {
    hide SR.Step, SR.Inv, SlotsAccepted, AnswersOk, NetOk, P.Record, Connects;
    SR.StepPanicsIff(w.server, e);
    var w' := ServerActs(w, e);
    if w'.serverDown {
      assert e.datagram in w'.arrived;
    } else if w.clientDown {
      var d :| d in w.arrived && !Sound(d);
      assert d in w'.arrived;
    }
  }

  lemma ServerStep(w: World, e: SR.Event)
    requires Inv(w) && !w.serverDown && S.Wf(w.server) && (e.Arrival? ==> CanArrive(w, e.datagram))
    ensures Inv(ServerActs(w, e))
  {
    SR.StepInv(w.server, e);
    ServerSlots(w, e);
    ServerNet(w, e);
    ServerAnswers(w, e);
    ServerDown(w, e);
    hide SR.Step, SR.Inv, NetOk, AnswersOk, SlotsAccepted, DownOk, P.Record, Connects;
    var w' := ServerActs(w, e);
    assert w.accepted + w'.accepted == w'.accepted;
    if w.client.state.Connected? {
      AcceptedMore(w.accepted, w'.accepted, w.client.token.serverToClientKey);
    }
  }

  /** What a client sends, and what makes it connected or panic. */
  lemma ClientStepFacts(c: C.Client, e: C.Event)
    requires C.Wf(c)
    ensures var o := C.Step(c, e);
      && C.Wf(o.client) && o.client.token == c.token
      && (o.sent.Some? ==> Sound(o.sent.value) && (o.sent.value.Sealed? ==> o.sent.value.key == c.token.clientToServerKey))
      && (o.client.state.Connected? && !c.state.Connected? ==>
           && c.state.SendingConnectionResponse? && e.Arrival? && e.datagram.Sealed?
           && e.datagram.key == c.token.serverToClientKey && e.datagram.body.KeepAlive?)
      && (o.panicked ==> e.Arrival? && !Sound(e.datagram))
  {
    hide R.Seen;
  }

  lemma ClientStep(w: World, e: C.Event)
    requires Inv(w) && !w.clientDown && C.Wf(w.client) && (e.Arrival? ==> CanArrive(w, e.datagram))
    ensures Inv(ClientActs(w, e))
  {
    ClientStepFacts(w.client, e);
    hide C.Step, SR.Inv;
    var w' := ClientActs(w, e);
    assert NetOk(w');
    if w'.clientDown {
      assert e.datagram in w'.arrived;
    } else if w.serverDown {
      var d :| d in w.arrived && !Sound(d);
      assert d in w'.arrived;
    }
  }

  lemma InitialInv(w: World)
    requires Initial(w)
    ensures Inv(w)
  {
    SR.StartInv(w.server);
    hide SR.Inv;
  }

  lemma NextInv(w: World, w': World)
    requires Inv(w) && Next(w, w')
    ensures Inv(w')
  {
    hide Inv, ServerActs, ClientActs;
    if e :| ServerNext(w, w', e) {
      ServerStep(w, e);
    } else {
      var e :| ClientNext(w, w', e);
      ClientStep(w, e);
    }
  }

  lemma {:induction false} RunInv(run: seq<World>)
    requires IsRun(run)
    ensures Inv(run[|run| - 1])
  {
    hide Inv, Initial, Next;
    var n := |run| - 1;
    if n == 0 {
      InitialInv(run[0]);
    } else {
      RunInv(run[..n]);
      assert Next(run[n - 1], run[n - 1 + 1]);
      NextInv(run[n - 1], run[n]);
    }
  }

  // ---------------------------------------------------------------- correspondence

  /** A client that is connected has been reported as connected by the server, under the token's key. */
  lemma ConnectedIsAccepted(run: seq<World>)
    requires IsRun(run) && run[|run| - 1].client.state.Connected?
    ensures var w := run[|run| - 1];
      exists c :: c in w.accepted && c.connection.sendKey == w.client.token.serverToClientKey
  {
    hide Initial, Next;
    RunInv(run);
    hide SR.Inv, NetOk, AnswersOk, SlotsAccepted, DownOk;
    assert AcceptedKey(run[|run| - 1].accepted, run[|run| - 1].client.token.serverToClientKey);
  }

  /**
   The datagram upon which the server reported a connection under the client's key is one
   that this client has sent: its response to a challenge of this server.
   */
  lemma AcceptedWasAnswered(run: seq<World>, c: Accepted)
    requires IsRun(run) && c in run[|run| - 1].accepted
    requires c.connection.receiveKey == run[|run| - 1].client.token.clientToServerKey
    ensures var w := run[|run| - 1];
      && c.answer in w.byClient && c.answer.Sealed? && c.answer.key == w.client.token.clientToServerKey
      && S.Answers(c.answer.body, w.server.challengeKey)
  {
    hide Initial, Next;
    RunInv(run);
    hide SR.Inv, NetOk, SlotsAccepted, DownOk;
  }

  /** If one of the two has panicked, a datagram has arrived that neither sent and that decoding cannot handle. */
  lemma PanicNeedsUnsoundDatagram(run: seq<World>)
    requires IsRun(run) && (run[|run| - 1].serverDown || run[|run| - 1].clientDown)
    ensures exists d :: d in run[|run| - 1].arrived && d !in run[|run| - 1].net && !Sound(d)
  {
    hide Initial, Next;
    RunInv(run);
    hide SR.Inv, AnswersOk, SlotsAccepted;
    var d :| d in run[|run| - 1].arrived && !Sound(d);
  }

  // ---------------------------------------------------------------- payloads

  /** No client is connected whose server-to-client key is this token's client-to-server key. */
  ghost predicate Unshared(w: World) {
    forall i :: !SlotKey(w.server.clients, i, w.client.token.clientToServerKey)
  }

  ghost predicate AllUnshared(run: seq<World>) {
    forall k :: 0 <= k < |run| ==> Unshared(run[k])
  }

  /** Payload `h`, as the client would have sealed it. */
  function Original(w: World, h: P.Handed): Datagram {
    Sealed(w.client.token.clientToServerKey, w.server.protocolId, h.sequence, Payload(h.bytes))
  }

  ghost predicate PayloadsOk(w: World) {
    && (forall d :: d in w.net && d.Sealed? && d.key == w.client.token.clientToServerKey && d.body.Payload? ==> d in w.byClient)
    && (forall m :: 0 <= m < |w.ledger.handed| && w.ledger.handed[m].key == w.client.token.clientToServerKey ==>
         Original(w, w.ledger.handed[m]) in w.byClient)
  }

  /** A payload that is handed out in this step was sealed under the key it is handed out for. */
  lemma HandedIsSealed(s: S.Server, l: P.Ledger, e: SR.Event)
    requires S.Wf(s) && P.Record(l, s, e).handed != l.handed
    ensures var h := P.Record(l, s, e).handed;
      && |h| == |l.handed| + 1 && h[..|l.handed|] == l.handed && e.Arrival?
      && var x := h[|l.handed|]; e.datagram == Sealed(x.key, s.protocolId, x.sequence, Payload(x.bytes))
  {
    P.PayloadIsAuthentic(s, e.addr, e.datagram);
    hide S.ProcessPacket, R.Seen, S.SlotByAddr;
  }

  lemma ServerPayloads(w: World, e: SR.Event)
    requires Inv(w) && PayloadsOk(w) && Unshared(w) && S.Wf(w.server) && (e.Arrival? ==> CanArrive(w, e.datagram))
    ensures PayloadsOk(ServerActs(w, e))
  {
    hide SR.Step, Inv, SentBy, PayloadSent, P.Record, Connects, SlotKey;
    ServerActsOk(w.server, e);
    StepKeepsKeys(w.server, e);
    var w' := ServerActs(w, e);
    assert w'.net == w.net + (SentBy(SR.Step(w.server, e).result) + PayloadSent(w.server, e));
    if w'.ledger.handed != w.ledger.handed {
      HandedIsSealed(w.server, w.ledger, e);
    }
  }

  lemma ClientPayloads(w: World, e: C.Event)
    requires PayloadsOk(w) && C.Wf(w.client)
    ensures PayloadsOk(ClientActs(w, e))
  {
    ClientStepFacts(w.client, e);
    hide C.Step;
  }

  lemma NextPayloads(w: World, w': World)
    requires Inv(w) && PayloadsOk(w) && Unshared(w) && Next(w, w')
    ensures PayloadsOk(w')
  {
    hide Inv, PayloadsOk, ServerActs, ClientActs;
    if e :| ServerNext(w, w', e) {
      ServerPayloads(w, e);
    } else {
      var e :| ClientNext(w, w', e);
      ClientPayloads(w, e);
    }
  }

  lemma {:induction false} RunPayloads(run: seq<World>)
    requires IsRun(run) && AllUnshared(run)
    ensures PayloadsOk(run[|run| - 1])
  {
    hide Inv, Next, PayloadsOk, Unshared;
    var n := |run| - 1;
    if n == 0 {
      NoPayloads(run[0]);
    } else {
      hide Initial;
      RunPayloads(run[..n]);
      RunInv(run[..n]);
      assert Next(run[n - 1], run[n - 1 + 1]);
      NextPayloads(run[n - 1], run[n]);
    }
  }

  lemma NoPayloads(w: World)
    requires Initial(w)
    ensures PayloadsOk(w)
  {
  }

  lemma NextLedger(w: World, w': World)
    requires Inv(w) && P.LedgerInv(w.server, w.ledger) && Next(w, w')
    ensures P.LedgerInv(w'.server, w'.ledger)
  {
    assert SR.Inv(w.server);
    hide Inv, SR.Inv, P.LedgerInv, P.Record, SR.Step, C.Step;
    if e :| ServerNext(w, w', e) {
      P.LedgerStep(w.server, w.ledger, e);
    }
  }

  lemma {:induction false} RunLedger(run: seq<World>)
    requires IsRun(run)
    ensures P.LedgerInv(run[|run| - 1].server, run[|run| - 1].ledger)
  {
    hide Inv, Next, P.LedgerInv;
    var n := |run| - 1;
    if n == 0 {
      P.StartLedger(run[0].server);
    } else {
      hide Initial;
      RunLedger(run[..n]);
      RunInv(run[..n]);
      assert Next(run[n - 1], run[n - 1 + 1]);
      NextLedger(run[n - 1], run[n]);
    }
  }

  /**
   In every run, every payload the server hands out under the token's key was sealed by the
   token's client as it is handed out, and no connection is handed one sequence twice.
   */
  lemma PayloadsAreGenuine(run: seq<World>)
    requires IsRun(run) && AllUnshared(run)
    ensures var w := run[|run| - 1];
      && (forall m :: 0 <= m < |w.ledger.handed| && w.ledger.handed[m].key == w.client.token.clientToServerKey ==>
           Original(w, w.ledger.handed[m]) in w.byClient)
      && P.NoTwice(w.ledger.handed)
  {
    hide Next, Initial, Unshared;
    RunPayloads(run);
    RunLedger(run);
    hide P.WindowsOk, P.SessionsOk, P.HandedOk, P.NoTwice, Original;
  }
}
