/** Refreshes of one provider that answers in full: the runs that show what can happen are made of these. */
module SmallRefreshes {
  import opened Common
  import opened Domain
  import opened InventoryTables
  import opened AliasTimeline
  import opened IdentityReconciler
  import opened RefreshPlan
  import opened RefreshRuns
  import opened RefreshCommits

  const PLATFORM: Scope := Scope("platform", "platform")

  /** An offer described without any identifier. */
  function Listed(provider: string, id: string, description: Description): DiscoveredOffer {
    DiscoveredOffer(provider, id, PLATFORM, IdentityHint(description, None, None))
  }

  function Answering(provider: string, offers: seq<DiscoveredOffer>): Request {
    Request(provider, "v1", PLATFORM, Some(Discovery(provider, "v1", Success, true, offers)))
  }

  /** One request, no aliases passed, and no operation in the ledger. */
  function Small(
    provider: string, offers: seq<DiscoveredOffer>, known: seq<Known>, latest: Latest, at: real, snapshotId: string,
    fence: Option<Fence>, created: seq<ModelIdentity>): Session
  {
    Session([Answering(provider, offers)], known, map[], latest, Stamp(at, at, 0.0), [snapshotId], [fence], created, [map[], map[]])
  }

  ghost predicate OneRequest(s: Session, offers: seq<DiscoveredOffer>) {
    WellSized(s) && |s.requests| == 1 && Discovered(s.requests[0]).offers == offers
  }

  lemma OneRequestItems(s: Session, offers: seq<DiscoveredOffer>)
    requires OneRequest(s, offers)
    ensures Items(s) == ItemsOf(offers)
  {
    assert AllOffers(s.requests[..0]) == [];
    assert AllOffers(s.requests) == [] + offers == offers;
  }

  /** Item `a` is the last one of its key. */
  ghost predicate IsLastOf(s: Session, a: nat, key: OfferKey) {
    a < |Items(s)| && Items(s)[a].key == key && forall b :: a < b < |Items(s)| ==> Items(s)[b].key != key
  }

  /** The decision about a key that request `n` lists. */
  lemma ListedDecision(s: Session, n: nat, i: nat, a: nat, key: OfferKey) returns (k: nat)
    requires WellSized(s) && n < |s.requests| && i < |Discovered(s.requests[n]).offers|
    requires KeyOf(Discovered(s.requests[n]).offers[i]) == key && IsLastOf(s, a, key)
    ensures k < |SessionDecisions(s, n)| && AliasKey(SessionDecisions(s, n)[k]) == key
    ensures SessionDecisions(s, n)[k].identityId == Answers(s)[a].identityId
    ensures DistinctKeys(SessionDecisions(s, n))
  {
    var offers := SessionSnapshot(s, n).offers;
    assert OfferKeyOf(offers[i]) == key;
    OffersAreDecided(offers, s.snapshotIds[n], SessionOutcomes(s), s.latest, s.stamp.completedAt, i);
    k :| 0 <= k < |SessionDecisions(s, n)| && AliasKey(SessionDecisions(s, n)[k]) == key;
    var j := DecisionSource(s, n, k);
    OfferIdentity(s, n, j);
    var b := OutcomeIsAnswer(s, key);
  }

  lemma {:induction false} OffersAreDecided(
    offers: seq<Offer>, snapshotId: string, outcomes: Outcomes, latest: Latest, at: real, i: nat)
    requires CoversOffers(outcomes, offers) && i < |offers|
    ensures Decides(DecisionsFor(offers, snapshotId, outcomes, latest, at), OfferKeyOf(offers[i]))
    decreases |offers|
  {
    var n := |offers| - 1;
    var before, all := DecisionsFor(offers[..n], snapshotId, outcomes, latest, at),
                       DecisionsFor(offers, snapshotId, outcomes, latest, at);
    if i < n {
      OffersAreDecided(offers[..n], snapshotId, outcomes, latest, at, i);
      var k :| 0 <= k < |before| && AliasKey(before[k]) == OfferKeyOf(offers[i]);
      assert all[k] == before[k];
    } else if !Decides(before, OfferKeyOf(offers[n])) {
      assert AliasKey(all[|before|]) == OfferKeyOf(offers[n]);
    }
  }

  lemma CommitEndsIn(
    t: Tables, snapshot: Snapshot, decisions: seq<AliasDecision>, fence: Option<Fence>, k: nat, key: OfferKey, id: IdentityId)
    requires AfterCommit(t, snapshot, decisions, INVENTORY_ACTOR, fence).Some?
    requires DistinctKeys(decisions) && k < |decisions| && key == AliasKey(decisions[k]) && id == decisions[k].identityId
    ensures Extends(Timeline(t.aliases, key),
                    Timeline(AfterCommit(t, snapshot, decisions, INVENTORY_ACTOR, fence).value.aliases, key), id)
  {
    CommitTimeline(t, snapshot, decisions, fence, key);
  }

  lemma DecisionIsEntered(t: Tables, s: Session, n: nat, k: nat, key: OfferKey, id: IdentityId)
    requires WellSized(s) && n < |s.requests| && TransactionTook(t, s, n + 1)
    requires k < |SessionDecisions(s, n)| && DistinctKeys(SessionDecisions(s, n))
    requires key == AliasKey(SessionDecisions(s, n)[k]) && id == SessionDecisions(s, n)[k].identityId
    ensures Extends(Timeline(t.aliases, key), Timeline(Executed(t, s, n + 1).aliases, key), id)
  {
    CommitStep(t, s, n);
    CommitEndsIn(t.(ledger := s.ledgers[n + 1]), SessionSnapshot(s, n), SessionDecisions(s, n), s.fences[n], k, key, id);
  }

  /** The commit that lists the key ends its history in the identity its last offer was given. */
  lemma ListedEndsIn(t: Tables, s: Session, n: nat, i: nat, a: nat, key: OfferKey, id: IdentityId)
    requires WellSized(s) && n < |s.requests| && i < |Discovered(s.requests[n]).offers| && TransactionTook(t, s, n + 1)
    requires KeyOf(Discovered(s.requests[n]).offers[i]) == key && IsLastOf(s, a, key)
    requires id == Answers(s)[a].identityId
    ensures Extends(Timeline(t.aliases, key), Timeline(Executed(t, s, n + 1).aliases, key), id)
  {
    var k := ListedDecision(s, n, i, a, key);
    DecisionIsEntered(t, s, n, k, key, id);
  }

  lemma ListedIsUnnamed(provider: string, id: string, description: Description)
    ensures ItemOf(Listed(provider, id, description)).identifiers == []
  {
  }

  lemma FullSnapshot(provider: string, offers: seq<DiscoveredOffer>, snapshotId: string, outcomes: Outcomes, at: real)
    requires Covers(outcomes, offers)
    requires forall i :: 0 <= i < |offers| ==> offers[i].provider == provider && offers[i].scope == PLATFORM
    requires forall i, j :: 0 <= i < j < |offers| ==> offers[i].upstreamModelId != offers[j].upstreamModelId
    ensures var snapshot := SnapshotOf(Answering(provider, offers), snapshotId, outcomes, Stamp(at, at, 0.0));
            ValidInventory(snapshot) && ListsOnce(snapshot)
  {
  }

  /** What is listed is valid, each id once. */
  lemma SmallIsWellFormed(
    provider: string, offers: seq<DiscoveredOffer>, known: seq<Known>, latest: Latest, at: real, snapshotId: string,
    fence: Option<Fence>, created: seq<ModelIdentity>)
    requires forall i :: 0 <= i < |offers| ==> offers[i].provider == provider && offers[i].scope == PLATFORM
    requires forall i, j :: 0 <= i < j < |offers| ==> offers[i].upstreamModelId != offers[j].upstreamModelId
    ensures WellFormed(Small(provider, offers, known, latest, at, snapshotId, fence, created))
  {
    var s := Small(provider, offers, known, latest, at, snapshotId, fence, created);
    OutcomesCoverRequests(s.requests, Answers(s), 0);
    FullSnapshot(provider, offers, snapshotId, SessionOutcomes(s), at);
  }

  /** With empty tables the platform path passes no aliases and no latest decisions. */
  lemma SmallStartsOnPath(
    provider: string, offers: seq<DiscoveredOffer>, known: seq<Known>, at: real, snapshotId: string, fence: Option<Fence>,
    created: seq<ModelIdentity>, t: Tables)
    requires t.aliases == []
    ensures OnPlatformPath(t, Small(provider, offers, known, map[], at, snapshotId, fence, created))
  {
  }

  /** The tables before, between and after the two transactions of a refresh of one request. */
  ghost function Through(t: Tables, s: Session, n: nat): seq<Tables>
    requires WellSized(s) && n < |s.requests|
  {
    var ensured := Executed(t, s, n);
    [t, ensured, Executed(ensured, s, n + 1)]
  }

  lemma ThroughExecutes(t: Tables, s: Session, n: nat)
    requires WellSized(s) && |s.requests| == 1 && n == 0
    ensures Executes(s, Through(t, s, n))
  {
    var trace := Through(t, s, n);
    forall k | 0 <= k < |trace| - 1 ensures trace[k + 1] == Stepper(s)(trace[k], k) {
      assert k == n || k == n + 1;
    }
  }
}
