/** `InventoryRefreshService`: discover, reconcile, ensure the identities, then commit request by request. */
module InventoryRefresh {
  import opened Common
  import opened Domain
  import opened InventoryTables
  import opened LedgerRuns
  import opened AliasTimeline
  import opened IdentityReconciler
  import opened PlatformStore
  import opened RefreshPlan
  import opened RefreshRuns

  method HasOneScopePerProvider(requests: seq<Request>) returns (distinct: bool)
    ensures distinct <==> DistinctProviders(requests)
  {
    var seen: set<string> := {};
    for i := 0 to |requests|
      invariant forall p :: p in seen <==> exists k :: 0 <= k < i && requests[k].provider == p
      invariant forall k, l :: 0 <= k < l < i ==> requests[k].provider != requests[l].provider
    {
      if requests[i].provider in seen {
        return false;
      }
      seen := seen + {requests[i].provider};
    }
    return true;
  }

  method CollectOffers(requests: seq<Request>) returns (offers: seq<DiscoveredOffer>)
    ensures offers == AllOffers(requests)
  {
    offers := [];
    for i := 0 to |requests|
      invariant offers == AllOffers(requests[..i])
    {
      offers := offers + Discovered(requests[i]).offers;
      assert requests[..i + 1][..i] == requests[..i];
    }
    assert requests[..|requests|] == requests;
  }

  /** The newest approved decision per key. */
  method LatestOfApproved(approved: seq<AliasDecision>) returns (latest: Latest)
    ensures latest == LatestGiven(approved)
  {
    latest := map[];
    for i := 0 to |approved|
      invariant latest == LatestGiven(approved[..i])
    {
      var alias := approved[i];
      if AliasKey(alias) !in latest || alias.decidedAt > latest[AliasKey(alias)].decidedAt {
        latest := latest[AliasKey(alias) := alias];
      }
      assert approved[..i + 1][..i] == approved[..i];
    }
    assert approved[..|approved|] == approved;
  }

  /** `_alias_decisions`. */
  method AliasDecisions(snapshot: Snapshot, outcomes: Outcomes, latest: Latest, decidedAt: real)
    returns (decisions: seq<AliasDecision>)
    requires CoversOffers(outcomes, snapshot.offers)
    ensures decisions == DecisionsFor(snapshot.offers, snapshot.snapshotId, outcomes, latest, decidedAt)
  {
    decisions := [];
    var seen: set<OfferKey> := {};
    for i := 0 to |snapshot.offers|
      invariant decisions == DecisionsFor(snapshot.offers[..i], snapshot.snapshotId, outcomes, latest, decidedAt)
      invariant forall key :: key in seen <==> Decides(decisions, key)
    {
      var offer := snapshot.offers[i];
      assert snapshot.offers[..i + 1][..i] == snapshot.offers[..i];
      if OfferKeyOf(offer) !in seen {
        var before := decisions;
        decisions := decisions + [DecisionFor(offer, snapshot.snapshotId, outcomes, latest, decidedAt)];
        OneMoreKey(before, decisions[|before|]);
        seen := seen + {OfferKeyOf(offer)};
      }
    }
    assert snapshot.offers[..|snapshot.offers|] == snapshot.offers;
  }

  lemma OneMoreKey(before: seq<AliasDecision>, last: AliasDecision)
    ensures forall key :: Decides(before + [last], key) <==> Decides(before, key) || key == AliasKey(last)
  {
    forall key ensures Decides(before + [last], key) <==> Decides(before, key) || key == AliasKey(last) {
      if Decides(before, key) {
        var i :| 0 <= i < |before| && AliasKey(before[i]) == key;
        assert AliasKey((before + [last])[i]) == key;
      }
      assert (before + [last])[|before|] == last;
    }
  }

  ghost predicate IsValue(identities: Identities, k: Known) {
    exists id :: id in identities && KnownOf(identities[id]) == k
  }

  method Values(identities: Identities) returns (known: seq<Known>)
    ensures forall k :: k in known ==> IsValue(identities, k)
    ensures forall id :: id in identities ==> KnownOf(identities[id]) in known
  {
    known := [];
    var rest := identities.Keys;
    while rest != {}
      invariant rest <= identities.Keys
      invariant forall k :: k in known ==> IsValue(identities, k)
      invariant forall id :: id in identities.Keys - rest ==> KnownOf(identities[id]) in known
      decreases rest
    {
      var id :| id in rest;
      known := known + [KnownOf(identities[id])];
      rest := rest - {id};
    }
  }

  method Records(items: seq<Item>, answers: seq<Assignment>, created: Identities) returns (records: seq<ModelIdentity>)
    requires |items| == |answers|
    requires forall id :: id in created ==> exists i :: CreatedFrom(items, answers, created[id], id, i)
    requires forall i :: 0 <= i < |items| && answers[i].minted ==> answers[i].identityId in created
    ensures CreatesOnce(items, answers, records)
    ensures forall k :: 0 <= k < |records| ==> records[k].identityId in created && created[records[k].identityId] == records[k]
  {
    records := [];
    var rest := created.Keys;
    while rest != {}
      invariant rest <= created.Keys
      invariant forall k :: 0 <= k < |records| ==>
        records[k].identityId in created.Keys - rest && created[records[k].identityId] == records[k]
      invariant forall k, l :: 0 <= k < l < |records| ==> records[k].identityId != records[l].identityId
      invariant forall id :: id in created.Keys - rest ==> CreatedAs(records, id)
      decreases rest
    {
      var id :| id in rest;
      ghost var before := records;
      records := records + [created[id]];
      forall other | other in created.Keys - (rest - {id}) ensures CreatedAs(records, other) {
        if other == id {
          assert records[|before|].identityId == id;
        } else {
          assert CreatedAs(before, other);
          var k :| 0 <= k < |before| && before[k].identityId == other;
          assert records[k] == before[k];
        }
      }
      rest := rest - {id};
    }
    forall k | 0 <= k < |records| ensures IsDescribed(items, answers, records[k]) {
      var id := records[k].identityId;
      var i :| CreatedFrom(items, answers, created[id], id, i);
      assert CreatedFrom(items, answers, records[k], records[k].identityId, i);
    }
  }

  function Merged(cache: Identities, known: seq<ModelIdentity>): (all: Identities)
    ensures forall id :: id in all ==>
              (id in cache && all[id] == cache[id]) || exists k :: 0 <= k < |known| && all[id] == known[k] && known[k].identityId == id
    ensures forall id :: id in cache ==> id in all
    ensures forall k :: 0 <= k < |known| ==> known[k].identityId in all
    decreases |known|
  {
    if known == [] then cache
    else
      var last := known[|known| - 1];
      Merged(cache, known[..|known| - 1])[last.identityId := last]
  }

  /** What a session reconciled: the offers it discovered, against the cache and what it was given. */
  ghost predicate Reconciled(
    s: Session, known: seq<ModelIdentity>, approved: Option<seq<AliasDecision>>, cache: Identities, rows: seq<AliasRow>)
  {
    WellSized(s) && CreatesWhatItMints(s)
    && s.aliases == ActiveAliases(if approved.Some? then approved.value else [])
    && (forall k :: k in s.known ==> IsValue(Merged(cache, known), k))
    && (forall id :: id in Merged(cache, known) ==> KnownOf(Merged(cache, known)[id]) in s.known)
    && s.latest == (if approved.Some? then LatestGiven(approved.value) else LatestInHistory(rows, SessionOutcomes(s).Keys))
  }

  /** The session ran its transactions up to the first that was refused; `ok` when none was. */
  ghost predicate RanTo(s: Session, trace: seq<Tables>, start: Tables, end: Tables, ok: bool) {
    Executes(s, trace) && |trace| > 1 && trace[0] == start && trace[|trace| - 1] == end
    && (forall n :: 0 <= n < |trace| - 2 ==> TransactionTook(trace[n], s, n))
    && (ok <==> |trace| == |s.requests| + 2 && TransactionTook(trace[|trace| - 2], s, |trace| - 2))
  }

  class InventoryRefreshService {
    const store: BenchmarkPlatformStore
    const maxStaleness: real
    var knownIdentities: Identities

    /** The cache only ever holds identities as they are stored. */
    ghost predicate Valid()
      reads this, store
    {
      store.Valid() && maxStaleness >= 0.0
      && forall id :: id in knownIdentities ==> id in store.identities && store.identities[id] == knownIdentities[id]
    }

    constructor (store: BenchmarkPlatformStore, maxStaleness: real)
      requires store.Valid() && maxStaleness >= 0.0
      ensures Valid() && this.store == store && this.maxStaleness == maxStaleness
    {
      this.store, this.maxStaleness, knownIdentities := store, maxStaleness, map[];
    }

    method Remember(records: seq<ModelIdentity>)
      requires store.Valid() && maxStaleness >= 0.0
      requires forall id :: id in knownIdentities ==> id in store.identities && store.identities[id] == knownIdentities[id]
      requires forall k :: 0 <= k < |records| ==>
                 records[k].identityId in store.identities && store.identities[records[k].identityId] == records[k]
      modifies this
      ensures Valid()
      ensures forall id :: id in old(knownIdentities) ==> id in knownIdentities
    {
      knownIdentities := Merged(knownIdentities, records);
    }

    /** Reconciles what was discovered and reads the latest decisions; nothing is written yet. */
    method Prepare(
      requests: seq<Request>, known: seq<ModelIdentity>, approved: Option<seq<AliasDecision>>, clock: nat -> real,
      ghost asked: Session)
      returns (outcomes: Outcomes, records: seq<ModelIdentity>, latest: Latest, ghost s: Session)
      requires asked.requests == requests && WellSized(asked)
      ensures s == asked.(known := s.known, aliases := s.aliases, latest := latest, created := records)
      ensures outcomes == SessionOutcomes(s) && Reconciled(s, known, approved, knownIdentities, store.aliases)
    {
      var offers := CollectOffers(requests);
      var items, approvedOrNone := ItemsOf(offers), if approved.Some? then approved.value else [];
      var all := Values(Merged(knownIdentities, known));
      var answers, created := Reconcile(items, all, approvedOrNone, clock);
      records := Records(items, answers, created);
      outcomes := OutcomesOf(items, answers);
      if approved.Some? {
        latest := LatestOfApproved(approved.value);
      } else {
        latest := LatestInHistory(store.aliases, outcomes.Keys);
      }
      s := asked.(known := all, aliases := ActiveAliases(approvedOrNone), latest := latest, created := records);
      assert Answers(s) == answers;
    }

    /** The commit of one request. */
    method CommitRequest(
      request: Request, outcomes: Outcomes, latest: Latest, stamp: Stamp, snapshotId: string, fence: Option<Fence>,
      ghost s: Session, ghost n: nat)
      returns (ok: bool)
      requires Valid() && WellSized(s) && n < |s.requests| && s.ledgers[n + 1] == store.operations
      requires s.requests[n] == request && s.latest == latest && s.stamp == stamp && s.snapshotIds[n] == snapshotId
      requires s.fences[n] == fence && outcomes == SessionOutcomes(s)
      modifies store`aliases, store`snapshots
      ensures Valid()
      ensures store.State() == Executed(old(store.State()), s, n + 1)
      ensures ok <==> TransactionTook(old(store.State()), s, n + 1)
    {
      OutcomesCoverRequests(s.requests, Answers(s), n);
      var snapshot := SnapshotOf(request, snapshotId, outcomes, stamp);
      assert snapshot == SessionSnapshot(s, n);
      var decisions := AliasDecisions(snapshot, outcomes, latest, stamp.completedAt);
      assert decisions == SessionDecisions(s, n);
      ghost var before := store.State();
      assert before.(ledger := s.ledgers[n + 1]) == before;
      CommitStep(before, s, n);
      ok := store.CommitReconciled(snapshot, decisions, INVENTORY_ACTOR, fence);
    }

    /** One commit per request, in order, up to the first that is refused. */
    method CommitEach(
      requests: seq<Request>, outcomes: Outcomes, latest: Latest, stamp: Stamp, snapshotIds: seq<string>,
      fences: seq<Option<Fence>>, ghost s: Session, ghost begun: seq<Tables>)
      returns (ok: bool, ghost trace: seq<Tables>)
      requires Valid() && WellSized(s) && Executes(s, begun) && |begun| == 2 && begun[1] == store.State()
      requires s.requests == requests && s.latest == latest && s.stamp == stamp && s.snapshotIds == snapshotIds
      requires s.fences == fences && outcomes == SessionOutcomes(s)
      requires forall n :: 0 <= n < |s.ledgers| ==> s.ledgers[n] == store.operations
      modifies store`aliases, store`snapshots
      ensures Valid()
      ensures begun <= trace && Executes(s, trace) && trace[|trace| - 1] == store.State()
      ensures forall n :: 1 <= n < |trace| - 2 ==> TransactionTook(trace[n], s, n)
      ensures ok ==> |trace| == |requests| + 2 && (|requests| > 0 ==> TransactionTook(trace[|trace| - 2], s, |trace| - 2))
      ensures !ok ==> |trace| > 2 && !TransactionTook(trace[|trace| - 2], s, |trace| - 2)
    {
      trace := begun;
      for i := 0 to |requests|
        invariant Valid() && begun <= trace && |trace| == i + 2 && Executes(s, trace)
        invariant trace[|trace| - 1] == store.State()
        invariant forall n :: 1 <= n <= i ==> TransactionTook(trace[n], s, n)
      {
        ghost var before := trace;
        ok := CommitRequest(requests[i], outcomes, latest, stamp, snapshotIds[i], fences[i], s, i);
        StepIsExecution(s, before[|before| - 1], |before| - 1);
        OneMoreStep(s, before, store.State());
        trace := before + [store.State()];
        if !ok {
          return false, trace;
        }
      }
      return true, trace;
    }

    /** The transactions of a prepared refresh, up to the first that is refused. */
    method Apply(
      requests: seq<Request>, outcomes: Outcomes, records: seq<ModelIdentity>, latest: Latest, stamp: Stamp,
      snapshotIds: seq<string>, fences: seq<Option<Fence>>, ghost s: Session)
      returns (ok: bool, ghost trace: seq<Tables>)
      requires Valid() && WellSized(s) && s.requests == requests && s.latest == latest && s.stamp == stamp
      requires s.snapshotIds == snapshotIds && s.fences == fences && s.created == records && outcomes == SessionOutcomes(s)
      requires forall n :: 0 <= n < |s.ledgers| ==> s.ledgers[n] == store.operations
      modifies this, store`identities, store`aliases, store`snapshots
      ensures Valid()
      ensures RanTo(s, trace, old(store.State()), store.State(), ok)
    {
      ghost var start := store.State();
      var ensured := store.EnsureIdentities(records);
      trace := [start, store.State()];
      EnsureEffect(start, s);
      assert start.(ledger := s.ledgers[0]) == start;
      if !ensured {
        return false, trace;
      }
      EnsuringOnlyAdds(start.identities, records);
      Remember(records);
      ok, trace := CommitEach(requests, outcomes, latest, stamp, snapshotIds, fences, s, trace);
    }

    /**
     * One refresh. `approved` is absent when the service is used on its own: it then passes no aliases to
     * the reconciler and asks the whole history for the latest decisions. The answers, the fence readings
     * and the ids are what the adapters, the clock and the id generator yielded. It stops at the first
     * transaction that is refused; what was committed before stays.
     */
    method Refresh(
      requests: seq<Request>, known: seq<ModelIdentity>, approved: Option<seq<AliasDecision>>,
      fences: seq<Option<Fence>>, snapshotIds: seq<string>, startedAt: real, completedAt: real, clock: nat -> real)
      returns (ok: bool, ghost s: Session, ghost trace: seq<Tables>)
      requires Valid() && |fences| == |snapshotIds| == |requests|
      modifies this, store`identities, store`aliases, store`snapshots
      ensures Valid()
      ensures !DistinctProviders(requests) ==> !ok && trace == [] && store.State() == old(store.State())
      ensures DistinctProviders(requests) ==>
                RanTo(s, trace, old(store.State()), store.State(), ok)
                && Reconciled(s, known, approved, old(knownIdentities), old(store.aliases))
      ensures s.requests == requests && s.fences == fences && s.snapshotIds == snapshotIds
      ensures s.stamp == Stamp(startedAt, completedAt, maxStaleness)
      ensures forall n :: 0 <= n < |s.ledgers| ==> s.ledgers[n] == old(store.operations)
    {
      var stamp := Stamp(startedAt, completedAt, maxStaleness);
      ghost var ledger := store.operations;
      s := Session(requests, [], map[], map[], stamp, snapshotIds, fences, [], seq(|requests| + 1, n => ledger));
      trace := [];
      var distinct := HasOneScopePerProvider(requests);
      if !distinct {
        return false, s, trace;
      }
      var outcomes, records, latest;
      outcomes, records, latest, s := Prepare(requests, known, approved, clock, s);
      ok, trace := Apply(requests, outcomes, records, latest, stamp, snapshotIds, fences, s);
    }
  }

  lemma StepIsExecution(s: Session, t: Tables, n: nat)
    requires WellSized(s) && n <= |s.requests|
    ensures Stepper(s)(t, n) == Executed(t, s, n)
  {
  }

  lemma OneMoreStep(s: Session, trace: seq<Tables>, next: Tables)
    requires Executes(s, trace) && |trace| < |s.requests| + 2 && next == Stepper(s)(trace[|trace| - 1], |trace| - 1)
    ensures Executes(s, trace + [next])
  {
    ChainGrows(trace, Stepper(s), next);
  }
}
