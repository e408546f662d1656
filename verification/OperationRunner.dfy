/** One worker running one claimed refresh operation: claim, read the context, refresh under a fence, finish. */
module OperationRunner {
  import opened Common
  import opened Domain
  import opened IdentifierComponents
  import opened InventoryTables
  import opened AliasTimeline
  import opened IdentityReconciler
  import opened PlatformStore
  import opened RefreshPlan
  import opened RefreshRuns
  import opened RefreshCommits
  import opened InventoryRefresh

  const OPERATION_LEASE_S: real := 60.0

  function StatusesOf(requests: seq<Request>): set<SnapshotStatus> {
    set k | 0 <= k < |requests| :: Discovered(requests[k]).status
  }

  /** How a refresh that committed everything is recorded. */
  function RefreshStatus(requests: seq<Request>): (status: Status)
    ensures requests != [] ==>
              (status == Succeeded <==> forall k :: 0 <= k < |requests| ==> Discovered(requests[k]).status == Success)
    ensures requests != [] ==>
              (status == Failed <==> forall k :: 0 <= k < |requests| ==> Discovered(requests[k]).status == Failure)
    ensures Terminal(status)
  {
    assert requests != [] ==> Discovered(requests[0]).status in StatusesOf(requests);
    assert forall k :: 0 <= k < |requests| ==> Discovered(requests[k]).status in StatusesOf(requests);
    if StatusesOf(requests) == {Success} then Succeeded
    else if StatusesOf(requests) == {Failure} then Failed
    else Partial
  }

  method FencesAt(operationId: string, worker: string, readings: seq<real>) returns (fences: seq<Option<Fence>>)
    ensures |fences| == |readings|
    ensures forall k :: 0 <= k < |readings| ==> fences[k] == Some(Fence(operationId, worker, readings[k]))
  {
    fences := seq(|readings|, k requires 0 <= k < |readings| => Some(Fence(operationId, worker, readings[k])));
  }

  method ProvidersOf(requests: seq<Request>) returns (providers: set<string>)
    ensures providers == set k | 0 <= k < |requests| :: requests[k].provider
  {
    providers := {};
    for i := 0 to |requests|
      invariant providers == set k | 0 <= k < i :: requests[k].provider
    {
      providers := providers + {requests[i].provider};
    }
  }

  /** The rows are the stored identities. */
  ghost predicate AreStored(rows: seq<ModelIdentity>, identities: Identities) {
    (forall k :: 0 <= k < |rows| ==> rows[k].identityId in identities && identities[rows[k].identityId] == rows[k])
    && forall id :: id in identities ==> identities[id] in rows
  }

  method IdentityRows(identities: Identities) returns (rows: seq<ModelIdentity>)
    requires KeyedById(identities)
    ensures AreStored(rows, identities)
  {
    rows := [];
    var rest := identities.Keys;
    while rest != {}
      invariant rest <= identities.Keys
      invariant forall k :: 0 <= k < |rows| ==> rows[k].identityId in identities && identities[rows[k].identityId] == rows[k]
      invariant forall id :: id in identities.Keys - rest ==> identities[id] in rows
      decreases rest
    {
      var id :| id in rest;
      rows := rows + [identities[id]];
      rest := rest - {id};
    }
  }

  lemma MergedIsStored(cache: Identities, rows: seq<ModelIdentity>, identities: Identities)
    requires forall id :: id in cache ==> id in identities && identities[id] == cache[id]
    requires AreStored(rows, identities) && KeyedById(identities)
    ensures Merged(cache, rows) == identities
  {
    forall id | id in identities ensures id in Merged(cache, rows) {
      var k :| 0 <= k < |rows| && rows[k] == identities[id];
    }
  }

  /** What the reconciler knows is exactly the stored identities, each by its fingerprint. */
  ghost predicate KnowsTheStore(s: Session, identities: Identities) {
    (forall id :: id in identities ==> KnownOf(identities[id]) in s.known)
    && forall k :: k in s.known ==> exists id :: id in identities && KnownOf(identities[id]) == k
  }

  /** The clock at each commit was still before the expiry of the lease the claim took. */
  ghost predicate WithinLease(readings: seq<real>, expiry: real) {
    forall k :: 0 <= k < |readings| ==> readings[k] < expiry
  }

  lemma ReconciledOnPath(
    t: Tables, s: Session, known: seq<ModelIdentity>, cache: Identities, providers: set<string>)
    requires Reconciled(s, known, Some(OpenAliases(t.aliases, providers)), cache, t.aliases)
    requires providers == Providers(s) && DistinctProviders(s.requests)
    requires forall id :: id in cache ==> id in t.identities && t.identities[id] == cache[id]
    requires KeyedById(t.identities) && AreStored(known, t.identities)
    ensures OnPlatformPath(t, s) && KnownAreStored(t, s) && KnowsTheStore(s, t.identities)
  {
    MergedIsStored(cache, known, t.identities);
    forall k | k in s.known ensures exists id :: id in t.identities && KnownOf(t.identities[id]) == k {
      assert IsValue(t.identities, k);
    }
  }

  lemma OnlyKnownIsGiven(items: seq<Item>, known: seq<Known>, aliases: Aliases, id: IdentityId, a: nat)
    requires a < |items| && Usable(items[a].fingerprint) && Known(id, items[a].fingerprint) in known
    requires forall k :: k in known && k.fingerprint == items[a].fingerprint ==> k.identityId == id
    requires forall j :: 0 <= j < |items| && items[j].fingerprint == items[a].fingerprint ==>
               items[j].key !in aliases && !HasPartner(Nodes(items), j)
    ensures Assigned(items, known, aliases, a) == Assignment(id, EXACT_FINGERPRINT, false)
  {
    forall j | 0 <= j < |items| && items[j].fingerprint == items[a].fingerprint ensures ByComponent(items, aliases, j).None? {
    }
    assert FingerprintTargets(items, known, aliases, a) == {id};
  }

  /**
   * So a model is recognised by what is stored of it: when exactly one stored identity has the fingerprint of
   * an offer, and no approved alias or shared identifier speaks for an offer of that fingerprint, it is given.
   */
  lemma StoredModelIsRecognised(s: Session, identities: Identities, id: IdentityId, a: nat)
    requires KnowsTheStore(s, identities) && KeyedById(identities) && id in identities && a < |Items(s)|
    requires Usable(Items(s)[a].fingerprint) && FingerprintOf(identities[id].description) == Items(s)[a].fingerprint
    requires forall other :: other in identities && FingerprintOf(identities[other].description) == Items(s)[a].fingerprint ==>
               other == id
    requires forall j :: 0 <= j < |Items(s)| && Items(s)[j].fingerprint == Items(s)[a].fingerprint ==>
               Items(s)[j].key !in s.aliases && !HasPartner(Nodes(Items(s)), j)
    ensures Answers(s)[a] == Assignment(id, EXACT_FINGERPRINT, false)
  {
    assert KnownOf(identities[id]) in s.known;
    OnlyKnownIsGiven(Items(s), s.known, s.aliases, id, a);
  }

  lemma CommittedWithinFence(t: Tables, s: Session, n: nat)
    requires WellSized(s) && n < |s.requests| && TransactionTook(t, s, n + 1) && s.fences[n].Some?
    ensures FenceHolds(s.ledgers[n + 1], s.fences[n].value)
  {
    CommitStep(t, s, n);
  }

  lemma EachTook(s: Session, trace: seq<Tables>, start: Tables, end: Tables, n: nat)
    requires RanTo(s, trace, start, end, true) && n <= |s.requests|
    ensures n < |trace| && TransactionTook(trace[n], s, n)
  {
  }

  lemma FenceIsEarly(ledger: Ledger, fence: Fence, expiry: real)
    requires FenceHolds(ledger, fence) && ledger[fence.operationId].leaseExpiresAt == Some(expiry)
    ensures fence.now < expiry
  {
  }

  /** A refresh that committed everything did so at readings before its lease ran out. */
  lemma CompletedWithinLease(
    s: Session, trace: seq<Tables>, start: Tables, end: Tables, operationId: string, worker: string, readings: seq<real>,
    expiry: real)
    requires RanTo(s, trace, start, end, true) && |readings| == |s.requests|
    requires forall n :: 0 <= n < |s.requests| ==> s.fences[n] == Some(Fence(operationId, worker, readings[n]))
    requires forall n :: 0 <= n < |s.ledgers| ==> s.ledgers[n] == start.ledger
    requires operationId in start.ledger && start.ledger[operationId].leaseExpiresAt == Some(expiry)
    ensures WithinLease(readings, expiry)
  {
    forall n | 0 <= n < |readings| ensures readings[n] < expiry {
      EachTook(s, trace, start, end, n + 1);
      CommittedWithinFence(trace[n + 1], s, n);
      FenceIsEarly(start.ledger, s.fences[n].value, expiry);
    }
  }

  /** The first transaction finds the operation under that worker's lease, until that instant. */
  ghost predicate LeasedFor(trace: seq<Tables>, operationId: string, owner: string, expiry: real) {
    trace != [] && operationId in trace[0].ledger && trace[0].ledger[operationId].leaseOwner == Some(owner)
    && trace[0].ledger[operationId].leaseExpiresAt == Some(expiry)
  }

  ghost predicate OnlyRowChanged(before: Ledger, after: Ledger, id: string) {
    before.Keys == after.Keys && forall other :: other in before && other != id ==> after[other] == before[other]
  }

  class Worker {
    const store: BenchmarkPlatformStore
    const service: InventoryRefreshService
    const workerId: string

    ghost predicate Valid()
      reads this, store, service
    {
      service.store == store && service.Valid()
    }

    constructor (service: InventoryRefreshService, workerId: string)
      requires service.Valid()
      ensures Valid() && this.service == service && this.workerId == workerId
    {
      this.service, this.store, this.workerId := service, service.store, workerId;
    }

    /** Reads the reconciliation context of the requested providers and refreshes under the claim's fence. */
    method RefreshClaimed(
      operationId: string, requests: seq<Request>, readings: seq<real>, snapshotIds: seq<string>,
      startedAt: real, completedAt: real, clock: nat -> real)
      returns (ok: bool, ghost s: Session, ghost trace: seq<Tables>)
      requires Valid() && |readings| == |snapshotIds| == |requests|
      requires operationId in store.operations && store.operations[operationId].leaseExpiresAt.Some?
      modifies service, store`identities, store`aliases, store`snapshots
      ensures Valid()
      ensures !DistinctProviders(requests) ==> !ok && store.State() == old(store.State())
      ensures DistinctProviders(requests) ==>
                RanTo(s, trace, old(store.State()), store.State(), ok)
                && OnPlatformPath(old(store.State()), s) && KnownAreStored(old(store.State()), s)
                && KnowsTheStore(s, old(store.identities))
                && s.requests == requests && CreatesWhatItMints(s)
      ensures ok ==> DistinctProviders(requests)
                     && WithinLease(readings, old(store.operations[operationId].leaseExpiresAt.value))
    {
      ghost var start := store.State();
      ghost var cache := service.knownIdentities;
      var providers := ProvidersOf(requests);
      var fences := FencesAt(operationId, workerId, readings);
      var identities := IdentityRows(store.identities);
      var approved := OpenAliases(store.aliases, providers);
      ok, s, trace := service.Refresh(requests, identities, Some(approved), fences, snapshotIds, startedAt, completedAt, clock);
      if DistinctProviders(requests) {
        ReconciledOnPath(start, s, identities, cache, providers);
        if ok {
          CompletedWithinLease(s, trace, start, store.State(), operationId, workerId, readings,
                               start.ledger[operationId].leaseExpiresAt.value);
        }
      }
    }

    /** Finishes the operation this worker holds; the rest of the ledger stays as it is. */
    method Conclude(operationId: string, status: Status, finishedAt: real)
      requires Valid() && Terminal(status) && Owns(store.operations, operationId, workerId)
      modifies store`operations
      ensures Valid() && OnlyRowChanged(old(store.operations), store.operations, operationId)
      ensures store.operations[operationId].leaseOwner == None && store.operations[operationId].status == status
    {
      var finished := store.FinishExecution(operationId, workerId, status, "", None, finishedAt);
    }

    /**
     * `_run_refresh`, with nothing else touching the operation meanwhile. A claim that fails changes nothing.
     * Otherwise the refresh is one step of a run of refreshes, and the ledger row ends with its status and
     * without a lease. `readings` are the clock at each commit, in order.
     */
    method RunRefresh(
      operationId: string, requests: seq<Request>, readings: seq<real>, snapshotIds: seq<string>,
      now: real, startedAt: real, completedAt: real, finishedAt: real, clock: nat -> real)
      returns (claimed: bool, ok: bool, ghost s: Session, ghost trace: seq<Tables>)
      requires Valid() && |readings| == |snapshotIds| == |requests|
      modifies store, service
      ensures Valid()
      ensures claimed <==> CanClaim(old(store.operations), operationId, now)
      ensures !claimed ==> !ok && store.State() == old(store.State())
      ensures claimed ==> (
                operationId in store.operations && store.operations[operationId].leaseOwner == None
                && store.operations[operationId].status == if ok then RefreshStatus(requests) else Failed)
      ensures OnlyRowChanged(old(store.operations), store.operations, operationId)
      ensures claimed && requests != [] && DistinctProviders(requests) ==>
                RefreshesTo(old(store.State()), s, trace, store.State()) && s.requests == requests
                && KnowsTheStore(s, old(store.identities)) && LeasedFor(trace, operationId, workerId, now + 60.0)
      ensures ok ==> requests != [] && DistinctProviders(requests) && |trace| == |requests| + 2
                     && WithinLease(readings, now + 60.0)
    {
      s := Session(requests, [], map[], map[], Stamp(startedAt, completedAt, 0.0), snapshotIds, [], [], []);
      trace, ok := [], false;
      ghost var before := store.State();
      var row := store.ClaimExecution(operationId, workerId, now, now + OPERATION_LEASE_S);
      claimed := row.Some?;
      if !claimed {
        return;
      }
      ghost var held := store.State();
      if requests != [] {
        ok, s, trace := RefreshClaimed(operationId, requests, readings, snapshotIds, startedAt, completedAt, clock);
      }
      ghost var refreshed := store.State();
      Conclude(operationId, if ok then RefreshStatus(requests) else Failed, finishedAt);
      if requests != [] && DistinctProviders(requests) {
        SessionIsStep(before, held, s, trace, refreshed, store.State(), ok, operationId, workerId, now + OPERATION_LEASE_S);
      }
    }
  }

  lemma SessionIsStep(
    before: Tables, held: Tables, s: Session, trace: seq<Tables>, refreshed: Tables, after: Tables, ok: bool,
    operationId: string, owner: string, expiry: real)
    requires operationId in held.ledger && held.ledger[operationId].leaseOwner == Some(owner)
    requires held.ledger[operationId].leaseExpiresAt == Some(expiry)
    requires RanTo(s, trace, held, refreshed, ok) && OnPlatformPath(held, s)
    requires held == before.(ledger := held.ledger) && after == refreshed.(ledger := after.ledger)
    ensures RefreshesTo(before, s, trace, after) && LeasedFor(trace, operationId, owner, expiry)
  {
  }
}
