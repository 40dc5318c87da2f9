/** Connects and disconnects as a netcode server reports them over a run (renetcode/src/server.rs). */
module ServerReports {
  import opened NetcodePacket
  import opened NetcodeServer
  import opened ServerRuns

  /** The balance of such a run tells whether the client has a slot. */
  lemma BalanceIsPresence(start: Server, events: seq<Event>, id: nat)
    requires IsStart(start) && Inv(start) && AllMatch(start, events)
    ensures var b := Balance(After(start, events).results, id);
      if SlotById(After(start, events).server.clients, id) < |After(start, events).server.clients| then b == 1 else b == 0
  {
    hide Inv, Step, CountId, IsStart, AllMatch, SlotById;
    MatchingRunsAreDistinct(start, events);
    BalanceIsCount(start, events, id);
    CountFound(After(start, events).server.clients, id);
    assert CountId(After(start, events).server.clients, id) <= 1;
  }

  ghost predicate ConnectAt(results: seq<ServerResult>, i: nat, id: nat) {
    i < |results| && results[i].ClientConnected? && results[i].clientId == id
  }

  ghost predicate DisconnectAt(results: seq<ServerResult>, i: nat, id: nat) {
    i < |results| && results[i].ClientDisconnected? && results[i].clientId == id
  }

  /** Nothing is reported of `id` in `results[lo..hi]`. */
  ghost predicate Silent(results: seq<ServerResult>, lo: nat, hi: nat, id: nat) {
    forall k :: lo <= k < hi ==> !ConnectAt(results, k, id) && !DisconnectAt(results, k, id)
  }

  /** The last report of `id` before `j` is a connect, or a disconnect. */
  ghost predicate LastIsConnect(results: seq<ServerResult>, j: nat, id: nat) {
    exists i: nat :: i < j && ConnectAt(results, i, id) && Silent(results, i + 1, j, id)
  }

  ghost predicate LastIsDisconnect(results: seq<ServerResult>, j: nat, id: nat) {
    exists i: nat :: i < j && DisconnectAt(results, i, id) && Silent(results, i + 1, j, id)
  }

  /**
   Each disconnect of `id` is preceded by a connect as the last report before it, and each
   connect by a disconnect unless it is the first report.
   */
  ghost predicate Alternates(results: seq<ServerResult>, id: nat) {
    && (forall j :: DisconnectAt(results, j, id) ==> LastIsConnect(results, j, id))
    && (forall j :: ConnectAt(results, j, id) ==> LastIsDisconnect(results, j, id) || Silent(results, 0, j, id))
  }

  ghost predicate ZeroOrOne(results: seq<ServerResult>, id: nat) {
    forall j :: 0 <= j <= |results| ==> 0 <= Balance(results[..j], id) <= 1
  }

  lemma BalanceStep(results: seq<ServerResult>, j: nat, id: nat)
    requires j < |results|
    ensures Balance(results[..j + 1], id) == Balance(results[..j], id) + Reported(results[j], id)
  {
    assert results[..j + 1][..j] == results[..j];
  }

  /** With balances of zero and one only, the balance is the last report. */
  lemma {:induction false} LastReport(results: seq<ServerResult>, j: nat, id: nat)
    requires j <= |results| && ZeroOrOne(results, id)
    ensures Balance(results[..j], id) == 1 ==> LastIsConnect(results, j, id)
    ensures Balance(results[..j], id) == 0 ==> LastIsDisconnect(results, j, id) || Silent(results, 0, j, id)
  {
    hide Silent, Balance, ZeroOrOne;
    if j == 0 {
      assert Balance(results[..0], id) == 0 && Silent(results, 0, 0, id) by { NothingYet(results, id); }
    } else {
      LastReport(results, j - 1, id);
      BalanceStep(results, j - 1, id);
      Bounds(results, j, id);
      Bounds(results, j - 1, id);
      if Reported(results[j - 1], id) == 0 {
        SilentMore(results, j, id);
      } else {
        SilentNone(results, j, id);
        assert ConnectAt(results, j - 1, id) || DisconnectAt(results, j - 1, id);
      }
    }
  }

  lemma NothingYet(results: seq<ServerResult>, id: nat)
    ensures Balance(results[..0], id) == 0 && Silent(results, 0, 0, id)
  {
  }

  lemma Bounds(results: seq<ServerResult>, j: nat, id: nat)
    requires ZeroOrOne(results, id) && j <= |results|
    ensures 0 <= Balance(results[..j], id) <= 1
  {
  }

  lemma SilentNone(results: seq<ServerResult>, j: nat, id: nat)
    ensures Silent(results, j, j, id)
  {
  }

  lemma SilentMore(results: seq<ServerResult>, j: nat, id: nat)
    requires 0 < j <= |results| && Reported(results[j - 1], id) == 0
    ensures forall i: nat :: i <= j - 1 && Silent(results, i, j - 1, id) ==> Silent(results, i, j, id)
    ensures LastIsConnect(results, j - 1, id) ==> LastIsConnect(results, j, id)
    ensures LastIsDisconnect(results, j - 1, id) ==> LastIsDisconnect(results, j, id)
  {
  }

  lemma ZeroOrOneAlternates(results: seq<ServerResult>, id: nat)
    requires ZeroOrOne(results, id)
    ensures Alternates(results, id)
  {
    hide Silent, Balance, ZeroOrOne, LastIsConnect, LastIsDisconnect;
    forall j: nat | ConnectAt(results, j, id) || DisconnectAt(results, j, id)
      ensures DisconnectAt(results, j, id) ==> LastIsConnect(results, j, id)
      ensures ConnectAt(results, j, id) ==> LastIsDisconnect(results, j, id) || Silent(results, 0, j, id)
    {
      LastReport(results, j, id);
      BalanceStep(results, j, id);
      Bounds(results, j, id);
      Bounds(results, j + 1, id);
    }
  }

  lemma {:induction false} ResultsPrefix(start: Server, events: seq<Event>, n: nat)
    requires Inv(start) && n <= |events|
    ensures After(start, events[..n]).results == After(start, events).results[..n]
  {
    hide Inv, Step, Next;
    if n == |events| {
      assert events[..n] == events;
    } else {
      var m := |events| - 1;
      ResultsPrefix(start, events[..m], n);
      assert events[..m][..n] == events[..n];
      NextExtends(After(start, events[..m]), events[m]);
    }
  }

  lemma NextExtends(h: History, e: Event)
    requires Inv(h.server)
    ensures Next(h, e).results[..|h.results|] == h.results
  {
    hide Inv, Step;
  }

  lemma AllMatchUpTo(start: Server, events: seq<Event>, n: nat)
    requires Inv(start) && AllMatch(start, events) && n <= |events|
    ensures AllMatch(start, events[..n])
  {
    hide Inv, AllMatch;
    if n < |events| {
      AllMatchPrefix(start, events, n);
    } else {
      assert events[..n] == events;
    }
  }

  /**
   In every run in which challenges match, the reports of each client alternate: the first
   is a connect, between two connects lies a disconnect, and between two disconnects a connect.
   */
  lemma ConnectsAlternate(start: Server, events: seq<Event>, id: nat)
    requires IsStart(start) && Inv(start) && AllMatch(start, events)
    ensures Alternates(After(start, events).results, id)
  {
    hide Inv, AllMatch, IsStart, After, Balance, Alternates, SlotById;
    var results := After(start, events).results;
    forall j | 0 <= j <= |results|
      ensures 0 <= Balance(results[..j], id) <= 1
    {
      AllMatchUpTo(start, events, j);
      ResultsPrefix(start, events, j);
      BalanceIsPresence(start, events[..j], id);
    }
    ZeroOrOneAlternates(results, id);
  }
}
