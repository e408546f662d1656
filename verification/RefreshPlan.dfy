/** What one inventory refresh writes, as functions of what it discovered and of what it read. */
module RefreshPlan {
  import opened Common
  import opened Domain
  import opened InventoryTables
  import opened LedgerRuns
  import opened IdentityReconciler

  datatype Discovery = Discovery(
    provider: string, adapterRevision: string, status: SnapshotStatus, paginationComplete: bool,
    offers: seq<DiscoveredOffer>)

  /** `answer` is what the adapter returned, or nothing when it raised. */
  datatype Request = Request(provider: string, adapterRevision: string, scope: Scope, answer: Option<Discovery>)

  /** `_discover`: an adapter that fails or answers for something else yields a failed, empty discovery. */
  function Discovered(request: Request): Discovery {
    if request.answer.Some? && request.answer.value.provider == request.provider
       && request.answer.value.adapterRevision == request.adapterRevision
    then request.answer.value
    else Discovery(request.provider, request.adapterRevision, Failure, false, [])
  }

  function AllOffers(requests: seq<Request>): seq<DiscoveredOffer> {
    if requests == [] then []
    else AllOffers(requests[..|requests| - 1]) + Discovered(requests[|requests| - 1]).offers
  }

  type Outcomes = map<OfferKey, Assignment>

  /** One outcome per provider and model id; of two rows for the same one the later counts. */
  function OutcomesOf(items: seq<Item>, answers: seq<Assignment>): (outcomes: Outcomes)
    requires |items| == |answers|
    ensures forall i :: 0 <= i < |items| ==> items[i].key in outcomes
    ensures forall key :: key in outcomes ==> exists i :: AnswersFor(items, answers, key, outcomes[key], i)
  {
    if items == [] then map[]
    else
      var n := |items| - 1;
      var before := OutcomesOf(items[..n], answers[..n]);
      LaterAnswerCounts(items, answers, before);
      before[items[n].key := answers[n]]
  }

  /** `i` is the last offer of that key, and `outcome` its answer. */
  ghost predicate AnswersFor(items: seq<Item>, answers: seq<Assignment>, key: OfferKey, outcome: Assignment, i: nat) {
    i < |items| == |answers| && items[i].key == key && answers[i] == outcome
    && forall j :: i < j < |items| ==> items[j].key != key
  }

  lemma LaterAnswerCounts(items: seq<Item>, answers: seq<Assignment>, before: Outcomes)
    requires |items| == |answers| > 0
    requires var n := |items| - 1;
             (forall i :: 0 <= i < n ==> items[..n][i].key in before)
             && forall key :: key in before ==> exists i :: AnswersFor(items[..n], answers[..n], key, before[key], i)
    ensures var after := before[items[|items| - 1].key := answers[|items| - 1]];
            (forall i :: 0 <= i < |items| ==> items[i].key in after)
            && forall key :: key in after ==> exists i :: AnswersFor(items, answers, key, after[key], i)
  {
    var n := |items| - 1;
    var after := before[items[n].key := answers[n]];
    forall i | 0 <= i < |items| ensures items[i].key in after {
      assert i < n ==> items[..n][i].key in before;
    }
    forall key | key in after ensures exists i :: AnswersFor(items, answers, key, after[key], i) {
      if key == items[n].key {
        assert AnswersFor(items, answers, key, after[key], n);
      } else {
        var i: nat :| AnswersFor(items[..n], answers[..n], key, before[key], i);
        assert forall j :: i < j < n ==> items[..n][j] == items[j];
        assert AnswersFor(items, answers, key, after[key], i);
      }
    }
  }

  ghost predicate Covers(outcomes: Outcomes, offers: seq<DiscoveredOffer>) {
    forall i :: 0 <= i < |offers| ==> KeyOf(offers[i]) in outcomes
  }

  /** When a refresh ran and how it stamps what it writes. */
  datatype Stamp = Stamp(startedAt: real, completedAt: real, staleness: real)

  function SnapshotOf(request: Request, snapshotId: string, outcomes: Outcomes, stamp: Stamp): Snapshot
    requires Covers(outcomes, Discovered(request).offers)
  {
    var found := Discovered(request);
    Snapshot(
      snapshotId, found.provider, request.scope, found.status, stamp.startedAt, stamp.completedAt,
      stamp.completedAt + stamp.staleness, found.paginationComplete, found.adapterRevision,
      seq(|found.offers|, i requires 0 <= i < |found.offers| && KeyOf(found.offers[i]) in outcomes =>
        Offer(found.offers[i].provider, found.offers[i].upstreamModelId, outcomes[KeyOf(found.offers[i])].identityId,
              found.offers[i].scope, found.adapterRevision)))
  }

  function OfferKeyOf(offer: Offer): OfferKey {
    OfferKey(offer.provider, offer.upstreamModelId)
  }

  type Latest = map<OfferKey, AliasDecision>

  const MICROSECOND: real := 0.000001

  /** Never earlier than the refresh, always later than the latest decision it knows of. */
  function DecisionTime(latest: Latest, key: OfferKey, completedAt: real): real {
    if key in latest then Max(completedAt, latest[key].decidedAt + MICROSECOND) else completedAt
  }

  function DecisionFor(offer: Offer, snapshotId: string, outcomes: Outcomes, latest: Latest, completedAt: real): AliasDecision
    requires OfferKeyOf(offer) in outcomes
  {
    var key := OfferKeyOf(offer);
    AliasDecision(
      Recorded(snapshotId, key), offer.provider, offer.upstreamModelId, offer.identityId, outcomes[key].how,
      Confidence(outcomes[key].how), Some(snapshotId), None, DecisionTime(latest, key, completedAt), None)
  }

  predicate Decides(decisions: seq<AliasDecision>, key: OfferKey) {
    exists i :: 0 <= i < |decisions| && AliasKey(decisions[i]) == key
  }

  ghost predicate CoversOffers(outcomes: Outcomes, offers: seq<Offer>) {
    forall i :: 0 <= i < |offers| ==> OfferKeyOf(offers[i]) in outcomes
  }

  /** `_alias_decisions`: one decision per key, from its first offer. */
  function DecisionsFor(
    offers: seq<Offer>, snapshotId: string, outcomes: Outcomes, latest: Latest, completedAt: real): seq<AliasDecision>
    requires CoversOffers(outcomes, offers)
  {
    if offers == [] then []
    else
      var before, last := DecisionsFor(offers[..|offers| - 1], snapshotId, outcomes, latest, completedAt), offers[|offers| - 1];
      if Decides(before, OfferKeyOf(last)) then before
      else before + [DecisionFor(last, snapshotId, outcomes, latest, completedAt)]
  }

  // ----- What the refresh reads -----

  /** The active alias decisions of the given providers. */
  function OpenAliases(rows: seq<AliasRow>, providers: set<string>): seq<AliasDecision> {
    if rows == [] then []
    else
      var before, last := OpenAliases(rows[..|rows| - 1], providers), rows[|rows| - 1].decision;
      if last.supersededAt.None? && last.provider in providers then before + [last] else before
  }

  /** The newest decision of each key among the approved aliases. */
  function LatestGiven(approved: seq<AliasDecision>): Latest {
    if approved == [] then map[]
    else
      var before, last := LatestGiven(approved[..|approved| - 1]), approved[|approved| - 1];
      if AliasKey(last) in before && last.decidedAt <= before[AliasKey(last)].decidedAt then before
      else before[AliasKey(last) := last]
  }

  /** `latest_alias_decisions`: the newest row of each requested key in the whole history. */
  function LatestInHistory(rows: seq<AliasRow>, keys: set<OfferKey>): Latest {
    if rows == [] then map[]
    else
      var before, last := LatestInHistory(rows[..|rows| - 1], keys), rows[|rows| - 1].decision;
      var key := AliasKey(last);
      if key !in keys || (key in before && last.decidedAt < before[key].decidedAt) then before
      else before[key := last]
  }

  function KnownOf(identity: ModelIdentity): Known {
    Known(identity.identityId, FingerprintOf(identity.description))
  }

  // ----- The transactions of one refresh -----

  const INVENTORY_ACTOR: Actor := Actor("benchmark-inventory", None)

  /**
   * One refresh: what was requested and read, the identities it created, its fence readings, and the
   * ledger as each of its transactions found it, since other workers keep moving the ledger meanwhile.
   */
  datatype Session = Session(
    requests: seq<Request>, known: seq<Known>, aliases: Aliases, latest: Latest, stamp: Stamp,
    snapshotIds: seq<string>, fences: seq<Option<Fence>>, created: seq<ModelIdentity>, ledgers: seq<Ledger>)

  ghost predicate WellSized(s: Session) {
    |s.snapshotIds| == |s.fences| == |s.requests| && |s.ledgers| == |s.requests| + 1
  }

  ghost function Items(s: Session): (items: seq<Item>)
    ensures |items| == |AllOffers(s.requests)|
  {
    ItemsOf(AllOffers(s.requests))
  }

  ghost function Answers(s: Session): (answers: seq<Assignment>)
    ensures |answers| == |Items(s)|
  {
    seq(|Items(s)|, i requires 0 <= i < |Items(s)| => Assigned(Items(s), s.known, s.aliases, i))
  }

  ghost function SessionOutcomes(s: Session): Outcomes {
    OutcomesOf(Items(s), Answers(s))
  }

  lemma {:induction false} RequestOffers(requests: seq<Request>, k: nat, i: nat) returns (j: nat)
    requires k < |requests| && i < |Discovered(requests[k]).offers|
    ensures j < |AllOffers(requests)| && AllOffers(requests)[j] == Discovered(requests[k]).offers[i]
  {
    var n := |requests| - 1;
    if k == n {
      j := |AllOffers(requests[..n])| + i;
    } else {
      j := RequestOffers(requests[..n], k, i);
    }
  }

  lemma OutcomesCoverRequests(requests: seq<Request>, answers: seq<Assignment>, k: nat)
    requires k < |requests| && |answers| == |AllOffers(requests)|
    ensures Covers(OutcomesOf(ItemsOf(AllOffers(requests)), answers), Discovered(requests[k]).offers)
  {
    forall i | 0 <= i < |Discovered(requests[k]).offers|
      ensures KeyOf(Discovered(requests[k]).offers[i]) in OutcomesOf(ItemsOf(AllOffers(requests)), answers)
    {
      var j := RequestOffers(requests, k, i);
      assert ItemsOf(AllOffers(requests))[j].key == KeyOf(AllOffers(requests)[j]);
    }
  }

  ghost function SessionSnapshot(s: Session, k: nat): (snapshot: Snapshot)
    requires WellSized(s) && k < |s.requests|
    ensures snapshot.snapshotId == s.snapshotIds[k]
    ensures snapshot.provider == s.requests[k].provider
    ensures CoversOffers(SessionOutcomes(s), snapshot.offers)
  {
    OutcomesCoverRequests(s.requests, Answers(s), k);
    SnapshotOf(s.requests[k], s.snapshotIds[k], SessionOutcomes(s), s.stamp)
  }

  ghost function SessionDecisions(s: Session, k: nat): seq<AliasDecision>
    requires WellSized(s) && k < |s.requests|
  {
    DecisionsFor(SessionSnapshot(s, k).offers, s.snapshotIds[k], SessionOutcomes(s), s.latest, s.stamp.completedAt)
  }

  /** Transaction 0 ensures the created identities; transaction k + 1 commits request k. */
  ghost function SessionEvent(s: Session, n: nat): Event
    requires WellSized(s) && n <= |s.requests|
  {
    if n == 0 then Ensure(s.created)
    else Commit(SessionSnapshot(s, n - 1), SessionDecisions(s, n - 1), INVENTORY_ACTOR, s.fences[n - 1])
  }

  /** What transaction `n` makes of the tables `t` as it finds them. */
  ghost function Executed(t: Tables, s: Session, n: nat): Tables
    requires WellSized(s) && n <= |s.requests|
  {
    After(t.(ledger := s.ledgers[n]), SessionEvent(s, n))
  }

  ghost predicate TransactionTook(t: Tables, s: Session, n: nat)
    requires WellSized(s) && n <= |s.requests|
  {
    TakesEffect(t.(ledger := s.ledgers[n]), SessionEvent(s, n))
  }

  /** Each entry is what `step` makes of the one before. */
  ghost predicate IsChain<T(!new)>(trace: seq<T>, step: (T, int) -> T) {
    forall n :: 0 <= n < |trace| - 1 ==> trace[n + 1] == step(trace[n], n)
  }

  lemma ChainGrows<T(!new)>(trace: seq<T>, step: (T, int) -> T, next: T)
    requires IsChain(trace, step) && trace != [] && next == step(trace[|trace| - 1], |trace| - 1)
    ensures IsChain(trace + [next], step)
  {
  }

  ghost function Stepper(s: Session): (Tables, int) -> Tables {
    (t: Tables, n: int) => if WellSized(s) && 0 <= n <= |s.requests| then Executed(t, s, n) else t
  }

  /** The tables before and after each of the first transactions of a refresh. */
  ghost predicate Executes(s: Session, trace: seq<Tables>) {
    WellSized(s) && 0 < |trace| <= |s.requests| + 2 && IsChain(trace, Stepper(s))
  }

  lemma StepOf(s: Session, trace: seq<Tables>, n: nat)
    requires Executes(s, trace) && n < |trace| - 1
    ensures trace[n + 1] == Executed(trace[n], s, n)
  {
  }

  /** The created records are exactly the minted identities, one each, described by an offer's hint. */
  ghost predicate CreatesOnce(items: seq<Item>, answers: seq<Assignment>, created: seq<ModelIdentity>)
    requires |items| == |answers|
  {
    (forall i :: 0 <= i < |items| && answers[i].minted ==> CreatedAs(created, answers[i].identityId))
    && (forall k :: 0 <= k < |created| ==> IsDescribed(items, answers, created[k]))
    && forall k, l :: 0 <= k < l < |created| ==> created[k].identityId != created[l].identityId
  }

  ghost predicate IsDescribed(items: seq<Item>, answers: seq<Assignment>, identity: ModelIdentity) {
    exists i :: CreatedFrom(items, answers, identity, identity.identityId, i)
  }

  ghost predicate CreatedAs(created: seq<ModelIdentity>, id: IdentityId) {
    exists k :: 0 <= k < |created| && created[k].identityId == id
  }

  ghost predicate CreatesWhatItMints(s: Session) {
    CreatesOnce(Items(s), Answers(s), s.created)
  }
}
