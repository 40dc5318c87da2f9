/**
 A run of a netcode server after which one client id occupies two slots: the response that
 is answered carries another client's challenge (renetcode/src/server.rs:471, 502).
 */
module ServerExample {
  import opened Common
  import opened NetcodePacket
  import opened NetcodeServer
  import opened ServerRuns
  import R = Replay

  const START: Server := New(0, 2, 7, [], 1, 2, false)

  function Token(id: nat, key: Key): PrivateToken {
    PrivateToken(id, 15, [], key, key + 1, [])
  }

  function Ask(id: nat, key: Key, mac: nat): Datagram {
    Request(true, 7, 100, 0, SealedToken(1, 7, 100, 0, Token(id, key), mac))
  }

  function Answer(key: Key, sequence: nat, id: nat): Datagram {
    Sealed(key, 7, 0, Response(sequence, SealedChallenge(2, sequence, id, [])))
  }

  /**
   Address 20 asks as client 5 and then as client 6, address 21 connects as client 5, and
   then address 20 answers as client 6.
   */
  const EVENTS: seq<Event> := [
    Arrival(20, Ask(5, 10, 100)),
    Arrival(20, Ask(6, 12, 101)),
    Arrival(21, Ask(5, 14, 102)),
    Arrival(21, Answer(14, 3, 5)),
    Arrival(20, Answer(10, 2, 6))]

  /** No entry has a MAC of at least `m`. */
  ghost predicate MacsBelow(entries: seq<Option<TokenEntry>>, m: nat) {
    forall i :: 0 <= i < |entries| && entries[i].Some? ==> entries[i].value.mac < m
  }

  lemma NewMac(entries: seq<Option<TokenEntry>>, e: TokenEntry)
    requires |entries| > 0 && MacsBelow(entries, e.mac)
    ensures var (ok, after) := FindOrAdd(entries, e); ok && MacsBelow(after, e.mac + 1) && |after| == |entries|
  {
    MatchingIs(entries, e.mac, |entries|);
  }

  /** A request with a new token when nothing stands against it. */
  lemma Asks(s: Server, a: Address, id: nat, key: Key, mac: nat)
    requires Wf(s) && s.protocolId == 7 && s.now == 0 && s.connectKey == 1 && !s.secure && s.challengeKey == 2
    requires |s.clients| == 2 && s.clients == [None, None] && s.maxClients == 2
    requires MacsBelow(s.entries, mac) && |s.pending| < 3
    ensures var s' := ProcessPacket(s, a, Ask(id, key, mac)).server;
      && s'.clients == s.clients && MacsBelow(s'.entries, mac + 1)
      && s' == s.(entries := s'.entries, globalSequence := s.globalSequence + 1,
                  challengeSequence := s.challengeSequence + 1, pending := s'.pending)
      && s'.pending == s.pending[a := s'.pending[a]]
      && (a in s.pending ==> s'.pending[a].clientId == s.pending[a].clientId &&
                             s'.pending[a].receiveKey == s.pending[a].receiveKey &&
                             s'.pending[a].window == s.pending[a].window)
      && (a !in s.pending ==> s'.pending[a] == NewPending(s, a, 100, Token(id, key)))
  {
    var d := Ask(id, key, mac);
    NewMac(s.entries, TokenEntry(0, a, mac));
    hide FindOrAdd, MacsBelow;
    assert SlotByAddr(s.clients, a) == 2 && SlotById(s.clients, id) == 2;
    assert Occupied(s.clients) == 0 by {
      var one := s.clients[..1];
      assert Occupied(one) == Occupied(one[..0]) && Occupied(s.clients) == Occupied(one);
    }
    assert RequestError(s, d).None?;
    if a in s.pending {
      var s0 := s.(pending := s.pending[a := s.pending[a].(lastReceived := 0)]);
      assert ProcessPacket(s, a, d) == HandleRequest(s0, a, d);
      assert s0.pending.Keys == s.pending.Keys;
    } else {
      assert ProcessPacket(s, a, d) == HandleRequest(s, a, d);
    }
  }

  /** A pending client answers a challenge made for client `id`. */
  lemma Answered(s: Server, a: Address, key: Key, sequence: nat, id: nat)
    requires Wf(s) && s.protocolId == 7 && s.challengeKey == 2 && a in s.pending && s.pending[a].receiveKey == key
    requires s.pending[a].window == R.New()
    requires SlotByAddr(s.clients, a) == |s.clients| && SlotById(s.clients, id) == |s.clients|
    requires FreeSlot(s.clients) < |s.clients|
    ensures var s' := ProcessPacket(s, a, Answer(key, sequence, id)).server;
      var i := FreeSlot(s.clients);
      && Wf(s') && s'.pending == s.pending - {a} && s' == s.(pending := s'.pending, clients := s'.clients)
      && s'.clients[i].Some? && s'.clients[i].value.clientId == s.pending[a].clientId
      && s'.clients[i].value.addr == s.pending[a].addr
      && s'.clients == s.clients[i := s'.clients[i]]
  {
    hide SlotByAddr, SlotById, FreeSlot;
    assert s.pending[a := s.pending[a]] == s.pending;
    var p := s.pending[a].(lastReceived := s.now);
    assert s.pending[a := p] - {a} == s.pending - {a};
  }

  lemma AfterNext(n: nat)
    requires Inv(START) && n < |EVENTS|
    ensures After(START, EVENTS[..n + 1]).server == Step(After(START, EVENTS[..n]).server, EVENTS[n]).server
  {
    hide Inv, Step, Down;
    SoundArrivalsNeverPanic(START, EVENTS[..n]);
    assert EVENTS[..n + 1][..n] == EVENTS[..n];
  }

  /** The server after the first `n` events. */
  ghost function At(n: nat): (s: Server)
    requires n <= |EVENTS|
    ensures Wf(s)
  {
    NewInv(0, 2, 7, [], 1, 2, false);
    After(START, EVENTS[..n]).server
  }

  lemma Next(n: nat)
    requires n < |EVENTS|
    ensures EVENTS[n].Arrival? && At(n + 1) == ProcessPacket(At(n), EVENTS[n].addr, EVENTS[n].datagram).server
  {
    NewInv(0, 2, 7, [], 1, 2, false);
    hide Inv, ProcessPacket;
    AfterNext(n);
  }

  /** What the requests leave: two pending clients with the same id. */
  ghost predicate TwoPending(s: Server) {
    && Wf(s) && s.protocolId == 7 && s.challengeKey == 2 && s.clients == [None, None]
    && 20 in s.pending && 21 in s.pending
    && s.pending[20].clientId == 5 && s.pending[20].receiveKey == 10 && s.pending[20].window == R.New()
    && s.pending[21].clientId == 5 && s.pending[21].receiveKey == 14 && s.pending[21].window == R.New()
    && s.pending[20].addr == 20 && s.pending[21].addr == 21
  }

  lemma ThreeRequests()
    ensures TwoPending(At(3))
  {
    hide ProcessPacket, R.New, FindOrAdd;
    assert At(0) == START && START.clients == [None, None] && MacsBelow(START.entries, 100);
    hide At, MacsBelow;
    Next(0);
    Asks(At(0), 20, 5, 10, 100);
    Next(1);
    Asks(At(1), 20, 6, 12, 101);
    Next(2);
    Asks(At(2), 21, 5, 14, 102);
  }

  lemma TwoResponses(s: Server)
    requires TwoPending(s)
    ensures var s1 := ProcessPacket(s, 21, Answer(14, 3, 5)).server;
      Wf(s1) && CountId(ProcessPacket(s1, 20, Answer(10, 2, 6)).server.clients, 5) == 2
  {
    hide R.New, Wf;
    assert s.clients[0].None? && s.clients[1].None?;
    assert FreeSlot(s.clients) == 0;
    Answered(s, 21, 14, 3, 5);
    var s1 := ProcessPacket(s, 21, Answer(14, 3, 5)).server;
    hide ProcessPacket;
    assert s1.clients == [s1.clients[0], None];
    assert FreeSlot(s1.clients) == 1;
    Answered(s1, 20, 10, 2, 6);
    var clients := ProcessPacket(s1, 20, Answer(10, 2, 6)).server.clients;
    assert clients == [s1.clients[0], clients[1]];
    var one := clients[..1];
    assert CountId(one, 5) == CountId(one[..0], 5) + 1 && CountId(clients, 5) == CountId(one, 5) + 1;
  }

  /** In this run connected ids do not stay distinct. */
  lemma OneIdTwoSlots()
    ensures IsStart(START) && Inv(START)
    ensures CountId(After(START, EVENTS).server.clients, 5) == 2
  {
    NewInv(0, 2, 7, [], 1, 2, false);
    hide Inv, ProcessPacket, CountId, TwoPending;
    ThreeRequests();
    TwoResponses(At(3));
    Next(3);
    Next(4);
    assert EVENTS[..5] == EVENTS;
  }
}
