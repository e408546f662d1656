/**
 * Refreshes of the platform path, one after the other: each passes the active aliases of the providers
 * it refreshes back to the reconciler. Over any such run a provider's model id keeps the identity of its
 * first committed refresh, and a well-formed commit is refused only by its fence.
 */
module StickyIdentities {
  import opened Common
  import opened Domain
  import opened InventoryTables
  import opened LedgerRuns
  import opened AliasTimeline
  import opened SnapshotRevisions
  import opened IdentityReconciler
  import opened RefreshPlan

  // ----- Rows and their place in the history of their key -----

  lemma {:induction false} RowInTimeline(rows: seq<AliasRow>, i: nat)
    requires i < |rows|
    ensures var key := AliasKey(rows[i].decision);
            |Timeline(rows[..i], key)| < |Timeline(rows, key)|
            && Timeline(rows, key)[|Timeline(rows[..i], key)|] == rows[i].decision
    decreases |rows|
  {
    var key, front := AliasKey(rows[i].decision), rows[..|rows| - 1];
    if i < |rows| - 1 {
      RowInTimeline(front, i);
      assert front[..i] == rows[..i];
    }
  }

  lemma {:induction false} TimelineFromRow(rows: seq<AliasRow>, key: OfferKey, k: nat) returns (i: nat)
    requires k < |Timeline(rows, key)|
    ensures i < |rows| && AliasKey(rows[i].decision) == key && rows[i].decision == Timeline(rows, key)[k]
  {
    var n := |rows| - 1;
    if k < |Timeline(rows[..n], key)| {
      i := TimelineFromRow(rows[..n], key, k);
    } else {
      i := n;
    }
  }

  ghost function LastOf(history: seq<AliasDecision>): AliasDecision
    requires history != []
  {
    history[|history| - 1]
  }

  /** The open row of a key, if there is one, is the last decision of its history. */
  lemma OpenRowIsLast(rows: seq<AliasRow>, i: nat)
    requires i < |rows| && rows[i].decision.supersededAt.None?
    requires GapFree(Timeline(rows, AliasKey(rows[i].decision)))
    ensures Timeline(rows, AliasKey(rows[i].decision)) != []
    ensures rows[i].decision == LastOf(Timeline(rows, AliasKey(rows[i].decision)))
  {
    var key := AliasKey(rows[i].decision);
    RowInTimeline(rows, i);
    LastIsLatest(Timeline(rows, key), |Timeline(rows[..i], key)|);
  }

  // ----- What the platform path reads -----

  lemma {:induction false} OpenAliasesAreRows(rows: seq<AliasRow>, providers: set<string>, k: nat) returns (i: nat)
    requires k < |OpenAliases(rows, providers)|
    ensures i < |rows| && rows[i].decision == OpenAliases(rows, providers)[k]
    ensures rows[i].decision.supersededAt.None? && rows[i].decision.provider in providers
  {
    var n := |rows| - 1;
    if k < |OpenAliases(rows[..n], providers)| {
      i := OpenAliasesAreRows(rows[..n], providers, k);
    } else {
      i := n;
    }
  }

  lemma {:induction false} OpenRowsAreRead(rows: seq<AliasRow>, providers: set<string>, i: nat) returns (k: nat)
    requires i < |rows| && rows[i].decision.supersededAt.None? && rows[i].decision.provider in providers
    ensures k < |OpenAliases(rows, providers)| && OpenAliases(rows, providers)[k] == rows[i].decision
    decreases |rows|
  {
    var n := |rows| - 1;
    if i < n {
      k := OpenRowsAreRead(rows[..n], providers, i);
    } else {
      k := |OpenAliases(rows[..n], providers)|;
    }
  }

  lemma {:induction false} ActiveSource(approved: seq<AliasDecision>, key: OfferKey) returns (k: nat)
    requires key in ActiveAliases(approved)
    ensures k < |approved| && AliasKey(approved[k]) == key && approved[k].identityId == ActiveAliases(approved)[key]
  {
    var n := |approved| - 1;
    if approved[n].supersededAt.None? && AliasKey(approved[n]) == key {
      k := n;
    } else {
      k := ActiveSource(approved[..n], key);
    }
  }

  lemma {:induction false} ActiveCovers(approved: seq<AliasDecision>, k: nat)
    requires k < |approved| && approved[k].supersededAt.None?
    ensures AliasKey(approved[k]) in ActiveAliases(approved)
    decreases |approved|
  {
    if k < |approved| - 1 {
      ActiveCovers(approved[..|approved| - 1], k);
    }
  }

  lemma {:induction false} LatestSource(approved: seq<AliasDecision>, key: OfferKey) returns (k: nat)
    requires key in LatestGiven(approved)
    ensures k < |approved| && AliasKey(approved[k]) == key && approved[k] == LatestGiven(approved)[key]
  {
    var n := |approved| - 1;
    if AliasKey(approved[n]) == key && approved[n] == LatestGiven(approved)[key] {
      k := n;
    } else {
      k := LatestSource(approved[..n], key);
    }
  }

  lemma {:induction false} LatestCovers(approved: seq<AliasDecision>, k: nat)
    requires k < |approved|
    ensures AliasKey(approved[k]) in LatestGiven(approved)
    decreases |approved|
  {
    if k < |approved| - 1 {
      LatestCovers(approved[..|approved| - 1], k);
    }
  }

  /** What is read of the active aliases for one key is the last decision of its history, and only that. */
  lemma OpenAliasIsLast(rows: seq<AliasRow>, providers: set<string>, k: nat)
    requires k < |OpenAliases(rows, providers)|
    requires GapFree(Timeline(rows, AliasKey(OpenAliases(rows, providers)[k])))
    ensures Timeline(rows, AliasKey(OpenAliases(rows, providers)[k])) != []
    ensures OpenAliases(rows, providers)[k] == LastOf(Timeline(rows, AliasKey(OpenAliases(rows, providers)[k])))
  {
    var i := OpenAliasesAreRows(rows, providers, k);
    OpenRowIsLast(rows, i);
  }

  lemma LastIsRead(rows: seq<AliasRow>, providers: set<string>, key: OfferKey) returns (k: nat)
    requires GapFree(Timeline(rows, key)) && Timeline(rows, key) != [] && key.provider in providers
    ensures k < |OpenAliases(rows, providers)| && OpenAliases(rows, providers)[k] == LastOf(Timeline(rows, key))
    ensures AliasKey(OpenAliases(rows, providers)[k]) == key && OpenAliases(rows, providers)[k].supersededAt.None?
  {
    var i := TimelineFromRow(rows, key, |Timeline(rows, key)| - 1);
    k := OpenRowsAreRead(rows, providers, i);
  }

  /** The reconciler is told, for every key with a history, exactly the identity that history ends in. */
  lemma AliasesAreLastDecisions(rows: seq<AliasRow>, providers: set<string>, key: OfferKey)
    requires GapFree(Timeline(rows, key)) && key.provider in providers
    ensures key in ActiveAliases(OpenAliases(rows, providers)) <==> Timeline(rows, key) != []
    ensures key in ActiveAliases(OpenAliases(rows, providers)) ==>
              ActiveAliases(OpenAliases(rows, providers))[key] == LastOf(Timeline(rows, key)).identityId
  {
    var approved := OpenAliases(rows, providers);
    if key in ActiveAliases(approved) {
      var k := ActiveSource(approved, key);
      OpenAliasIsLast(rows, providers, k);
    }
    if Timeline(rows, key) != [] {
      var k := LastIsRead(rows, providers, key);
      ActiveCovers(approved, k);
    }
  }

  lemma ActiveLatestIsLast(rows: seq<AliasRow>, providers: set<string>, key: OfferKey)
    requires GapFree(Timeline(rows, key)) && key.provider in providers
    ensures key in LatestGiven(OpenAliases(rows, providers)) <==> Timeline(rows, key) != []
    ensures key in LatestGiven(OpenAliases(rows, providers)) ==>
              LatestGiven(OpenAliases(rows, providers))[key] == LastOf(Timeline(rows, key))
  {
    var approved := OpenAliases(rows, providers);
    if key in LatestGiven(approved) {
      var k := LatestSource(approved, key);
      OpenAliasIsLast(rows, providers, k);
    }
    if Timeline(rows, key) != [] {
      var k := LastIsRead(rows, providers, key);
      LatestCovers(approved, k);
    }
  }

  /** The newest row of a key, found over its whole history, by decision time. */
  lemma {:induction false} HistoryLatestIsNewest(rows: seq<AliasRow>, keys: set<OfferKey>, key: OfferKey)
    requires key in keys
    ensures key in LatestInHistory(rows, keys) <==> Timeline(rows, key) != []
    ensures key in LatestInHistory(rows, keys) ==>
              LatestInHistory(rows, keys)[key] in Timeline(rows, key)
              && forall k :: 0 <= k < |Timeline(rows, key)| ==>
                   Timeline(rows, key)[k].decidedAt <= LatestInHistory(rows, keys)[key].decidedAt
  {
    if rows != [] {
      var n := |rows| - 1;
      HistoryLatestIsNewest(rows[..n], keys, key);
      var front, last := Timeline(rows[..n], key), rows[n].decision;
      if AliasKey(last) != key {
        assert Timeline(rows, key) == front;
      }
    }
  }

  lemma {:induction false} LastIsStrictlyNewest(history: seq<AliasDecision>, k: nat)
    requires GapFree(history) && k < |history| - 1
    ensures history[k].decidedAt < LastOf(history).decidedAt
    decreases |history| - k
  {
    assert history[k].decidedAt < history[k + 1].decidedAt;
    if k < |history| - 2 {
      LastIsStrictlyNewest(history, k + 1);
    }
  }

  lemma NewestIsLast(history: seq<AliasDecision>, newest: AliasDecision)
    requires GapFree(history) && newest in history
    requires forall k :: 0 <= k < |history| ==> history[k].decidedAt <= newest.decidedAt
    ensures newest == LastOf(history)
  {
    var k :| 0 <= k < |history| && history[k] == newest;
    if k < |history| - 1 {
      LastIsStrictlyNewest(history, k);
    }
  }

  /** Deriving "latest" from the active aliases answers what the full-history query would. */
  lemma ActiveLatestIsHistoryLatest(rows: seq<AliasRow>, providers: set<string>, keys: set<OfferKey>, key: OfferKey)
    requires AllGapFree(rows) && key in keys && key.provider in providers
    ensures key in LatestGiven(OpenAliases(rows, providers)) <==> key in LatestInHistory(rows, keys)
    ensures key in LatestInHistory(rows, keys) ==>
              LatestGiven(OpenAliases(rows, providers))[key] == LatestInHistory(rows, keys)[key]
  {
    ActiveLatestIsLast(rows, providers, key);
    HistoryLatestIsNewest(rows, keys, key);
    if key in LatestInHistory(rows, keys) {
      NewestIsLast(Timeline(rows, key), LatestInHistory(rows, keys)[key]);
    }
  }
}
