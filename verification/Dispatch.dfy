/** The dispatch loop of `Gateway.complete`: bounded retries, residency-bounded fallbacks, one trace per candidate. */
module Dispatch {
  import opened Common
  import opened Breaker

  datatype Entry = Entry(id: string, lane: string, endpoint: string, residencyClass: string, provider: string)

  /** An upstream failure as the loop sees it: transient or not, and the wait it advertises. */
  datatype Failure = Failure(name: string, retryable: bool, retryAfter: Option<real>)

  datatype Outcome = Reply | UnknownModel | Fails(failure: Failure)

  /** Why a candidate was given up. `Nothing` stands for the null exception. */
  datatype Cause = CircuitOpen(provider: string) | Upstream(failure: Failure) | Nothing

  datatype Trace = Trace(modelId: string, error: Option<Cause>)

  datatype Result = Served(modelId: string) | Raised(cause: Cause) | Unknown | Degraded

  /**
   * One upstream call: whether the breaker let its provider be called at that instant, and what was reported
   * to the breaker afterwards.
   */
  datatype Call = Call(
    candidate: nat, entry: Entry, resilient: bool, at: real, admitted: bool, outcome: Outcome, reports: seq<Report>,
    ask: Option<Ask>)

  /** Whether the same candidate may be tried again, as the breaker answered at that instant. */
  datatype Ask = Ask(at: real, again: bool)

  /** The check before a candidate is tried: the breaker's own answer, and whether a peer reported it open. */
  datatype Check = Check(provider: string, tick: nat, admitted: bool, peer: bool)

  datatype Deed = Checks(check: Check) | Calls(call: Call)

  // ----- Candidates -----

  function Get(catalog: seq<Entry>, id: string): Option<Entry> {
    if catalog == [] then None
    else if catalog[0].id == id then Some(catalog[0])
    else Get(catalog[1..], id)
  }

  predicate MayFallBack(e: Entry, planned: Entry, privacy: bool) {
    e.id != planned.id && e.endpoint != "fake" && e.residencyClass == planned.residencyClass
    && (privacy ==> e.lane == planned.lane)
  }

  function FallbackIds(catalog: seq<Entry>, planned: Entry, privacy: bool): seq<string> {
    if catalog == [] then []
    else
      var n := |catalog| - 1;
      FallbackIds(catalog[..n], planned, privacy) + if MayFallBack(catalog[n], planned, privacy) then [catalog[n].id] else []
  }

  /** `fallbacks`: in catalog order, and none for a model the catalog does not list. */
  method Fallbacks(catalog: seq<Entry>, id: string, privacy: bool) returns (ids: seq<string>)
    ensures ids == if Get(catalog, id).None? then [] else FallbackIds(catalog, Get(catalog, id).value, privacy)
  {
    ids := [];
    var planned := Get(catalog, id);
    if planned.None? {
      return;
    }
    for i := 0 to |catalog|
      invariant ids == FallbackIds(catalog[..i], planned.value, privacy)
    {
      assert catalog[..i + 1][..i] == catalog[..i];
      var e := catalog[i];
      if e.id == planned.value.id || e.endpoint == "fake" {
        continue;
      }
      if e.residencyClass != planned.value.residencyClass {
        continue;
      }
      if privacy && e.lane != planned.value.lane {
        continue;
      }
      ids := ids + [e.id];
    }
    assert catalog[..|catalog|] == catalog;
  }

  ghost predicate UniqueIds(catalog: seq<Entry>) {
    forall i, j :: 0 <= i < j < |catalog| ==> catalog[i].id != catalog[j].id
  }

  lemma {:induction false} GetFinds(catalog: seq<Entry>, i: nat)
    requires i < |catalog|
    ensures Get(catalog, catalog[i].id).Some? && Get(catalog, catalog[i].id).value.id == catalog[i].id
    ensures UniqueIds(catalog) ==> Get(catalog, catalog[i].id) == Some(catalog[i])
  {
    if catalog[0].id != catalog[i].id {
      GetFinds(catalog[1..], i - 1);
    }
  }

  /** The catalog answers with the first entry of an id, and with none exactly when there is no such entry. */
  lemma {:induction false} GetIsFirst(catalog: seq<Entry>, id: string)
    ensures Get(catalog, id).None? <==> forall i :: 0 <= i < |catalog| ==> catalog[i].id != id
    ensures Get(catalog, id).Some? ==>
              exists i :: 0 <= i < |catalog| && Get(catalog, id) == Some(catalog[i]) && catalog[i].id == id
                          && forall j :: 0 <= j < i ==> catalog[j].id != id
  {
    if catalog != [] && catalog[0].id != id {
      GetIsFirst(catalog[1..], id);
      if i :| 0 <= i < |catalog[1..]| && Get(catalog, id) == Some(catalog[1..][i]) && catalog[1..][i].id == id
              && forall j :: 0 <= j < i ==> catalog[1..][j].id != id
      {
        assert catalog[i + 1] == catalog[1..][i];
        assert forall j :: 0 < j < i + 1 ==> catalog[j] == catalog[1..][j - 1];
      }
      assert forall i :: 0 < i < |catalog| ==> catalog[i] == catalog[1..][i - 1];
    }
  }

  lemma {:induction false} FallbackSource(catalog: seq<Entry>, planned: Entry, privacy: bool, k: nat) returns (i: nat)
    requires k < |FallbackIds(catalog, planned, privacy)|
    ensures i < |catalog| && catalog[i].id == FallbackIds(catalog, planned, privacy)[k]
    ensures MayFallBack(catalog[i], planned, privacy)
  {
    var n := |catalog| - 1;
    if k < |FallbackIds(catalog[..n], planned, privacy)| {
      i := FallbackSource(catalog[..n], planned, privacy, k);
    } else {
      i := n;
    }
  }

  lemma {:induction false} FallbackListed(catalog: seq<Entry>, planned: Entry, privacy: bool, i: nat) returns (k: nat)
    requires i < |catalog| && MayFallBack(catalog[i], planned, privacy)
    ensures k < |FallbackIds(catalog, planned, privacy)| && FallbackIds(catalog, planned, privacy)[k] == catalog[i].id
    decreases |catalog|
  {
    var n := |catalog| - 1;
    if i < n {
      k := FallbackListed(catalog[..n], planned, privacy, i);
    } else {
      k := |FallbackIds(catalog[..n], planned, privacy)|;
    }
  }

  lemma FallbacksResolve(catalog: seq<Entry>, planned: Entry)
    ensures forall k :: 0 <= k < |FallbackIds(catalog, planned, false)| ==> Get(catalog, FallbackIds(catalog, planned, false)[k]).Some?
  {
    forall k | 0 <= k < |FallbackIds(catalog, planned, false)|
      ensures Get(catalog, FallbackIds(catalog, planned, false)[k]).Some?
    {
      var i := FallbackSource(catalog, planned, false, k);
      GetFinds(catalog, i);
    }
  }

  /** `catalog.require` on each fallback id. */
  function Resolved(catalog: seq<Entry>, ids: seq<string>): (entries: seq<Entry>)
    requires forall k :: 0 <= k < |ids| ==> Get(catalog, ids[k]).Some?
    ensures |entries| == |ids| && forall k :: 0 <= k < |ids| ==> Get(catalog, ids[k]) == Some(entries[k])
  {
    seq(|ids|, k requires 0 <= k < |ids| && Get(catalog, ids[k]).Some? => Get(catalog, ids[k]).value)
  }

  /** The entries a request falls back to: those the ids of eligible entries resolve to. */
  function FallbackEntries(catalog: seq<Entry>, planned: Entry): seq<Entry> {
    match Get(catalog, planned.id)
    case None => []
    case Some(listed) =>
      FallbacksResolve(catalog, listed);
      Resolved(catalog, FallbackIds(catalog, listed, false))
  }

  /** The candidates of a request: the planned entry, then its fallbacks. */
  function CandidatesOf(catalog: seq<Entry>, planned: Entry, fallBack: bool): seq<Entry> {
    [planned] + if fallBack then FallbackEntries(catalog, planned) else []
  }

  method Candidates(catalog: seq<Entry>, planned: Entry, fallBack: bool) returns (candidates: seq<Entry>)
    ensures candidates == CandidatesOf(catalog, planned, fallBack)
  {
    candidates := [planned];
    if fallBack {
      var ids := Fallbacks(catalog, planned.id, false);
      if Get(catalog, planned.id).Some? {
        FallbacksResolve(catalog, Get(catalog, planned.id).value);
      }
      candidates := candidates + Resolved(catalog, ids);
    }
  }

  /** What the ids of the eligible entries resolve to all has the property. */
  ghost predicate ResolveTo(catalog: seq<Entry>, planned: Entry, p: Entry -> bool) {
    Get(catalog, planned.id).Some? ==>
      forall i :: 0 <= i < |catalog| && MayFallBack(catalog[i], Get(catalog, planned.id).value, false) ==>
        forall e :: Get(catalog, catalog[i].id) == Some(e) ==> p(e)
  }

  lemma FallbacksAllIff(catalog: seq<Entry>, planned: Entry, p: Entry -> bool)
    ensures (forall k :: 0 <= k < |FallbackEntries(catalog, planned)| ==> p(FallbackEntries(catalog, planned)[k]))
        <==> ResolveTo(catalog, planned, p)
  {
    var entries := FallbackEntries(catalog, planned);
    if Get(catalog, planned.id).Some? {
      var listed := Get(catalog, planned.id).value;
      var ids := FallbackIds(catalog, listed, false);
      forall i | 0 <= i < |catalog| && MayFallBack(catalog[i], listed, false)
        ensures exists k :: 0 <= k < |entries| && Get(catalog, catalog[i].id) == Some(entries[k])
      {
        var k := FallbackListed(catalog, listed, false, i);
        assert ids[k] == catalog[i].id;
      }
      forall k | 0 <= k < |entries|
        ensures exists i :: 0 <= i < |catalog| && MayFallBack(catalog[i], listed, false)
                            && Get(catalog, catalog[i].id) == Some(entries[k])
      {
        var i := FallbackSource(catalog, listed, false, k);
        assert ids[k] == catalog[i].id;
      }
    }
  }

  /** Every eligible id resolves to an entry of the planned residency. */
  ghost predicate ResolvesWithin(catalog: seq<Entry>, planned: Entry) {
    ResolveTo(catalog, planned, (e: Entry) => e.residencyClass == planned.residencyClass)
  }

  /** No eligible id resolves to a fake entry. */
  ghost predicate ResolvesToReal(catalog: seq<Entry>, planned: Entry) {
    ResolveTo(catalog, planned, (e: Entry) => e.endpoint != "fake")
  }

  /** Fallback stays within the planned residency exactly when every eligible id resolves within it. */
  lemma ResidencyKeptIff(catalog: seq<Entry>, planned: Entry)
    ensures (forall k :: 0 <= k < |CandidatesOf(catalog, planned, true)| ==>
               CandidatesOf(catalog, planned, true)[k].residencyClass == planned.residencyClass)
        <==> ResolvesWithin(catalog, planned)
  {
    FallbacksAllIff(catalog, planned, (e: Entry) => e.residencyClass == planned.residencyClass);
    forall k | 0 <= k < |FallbackEntries(catalog, planned)|
      ensures CandidatesOf(catalog, planned, true)[k + 1] == FallbackEntries(catalog, planned)[k]
    {
    }
  }

  /** No fallback is fake exactly when no eligible id resolves to a fake entry. */
  lemma NoFakeFallbackIff(catalog: seq<Entry>, planned: Entry)
    ensures (forall k :: 0 <= k < |FallbackEntries(catalog, planned)| ==> FallbackEntries(catalog, planned)[k].endpoint != "fake")
        <==> ResolvesToReal(catalog, planned)
  {
    FallbacksAllIff(catalog, planned, (e: Entry) => e.endpoint != "fake");
  }

  /** Unique ids, with the planned entry as listed, are enough for both. */
  lemma UniqueIdsResolve(catalog: seq<Entry>, planned: Entry)
    requires UniqueIds(catalog) && planned in catalog
    ensures ResolvesWithin(catalog, planned) && ResolvesToReal(catalog, planned)
  {
    var p :| 0 <= p < |catalog| && catalog[p] == planned;
    GetFinds(catalog, p);
    forall i | 0 <= i < |catalog| ensures Get(catalog, catalog[i].id) == Some(catalog[i]) {
      GetFinds(catalog, i);
    }
  }

  /** A repeated id can cross: an eligible entry's id resolves to an earlier one of another residency. */
  lemma RepeatedIdCrossesResidency(planned: Entry, x: Entry, y: Entry)
    requires x.id == y.id != planned.id && y.endpoint != "fake"
    requires x.residencyClass != planned.residencyClass == y.residencyClass
    ensures !ResolvesWithin([planned, x, y], planned)
    ensures x in CandidatesOf([planned, x, y], planned, true)
  {
    var catalog := [planned, x, y];
    assert catalog[0].id == planned.id && catalog[1..] == [x, y];
    assert Get(catalog, planned.id) == Some(planned) && Get(catalog, y.id) == Some(x);
    assert MayFallBack(catalog[2], planned, false);
    var k := FallbackListed(catalog, planned, false, 2);
    FallbacksResolve(catalog, planned);
    assert FallbackEntries(catalog, planned)[k] == x;
    assert CandidatesOf(catalog, planned, true)[k + 1] == x;
  }

  // ----- Waiting -----

  function Power(n: nat): real {
    if n == 0 then 1.0 else 2.0 * Power(n - 1)
  }

  function Backoff(attempt: nat, base: real, jitter: real, retryAfter: Option<real>, cap: real): (wait: real)
    ensures wait <= cap
    ensures retryAfter.Some? && 0.0 <= retryAfter.value <= cap ==> wait == retryAfter.value
    ensures retryAfter.Some? && 0.0 <= cap < retryAfter.value ==> wait == cap
  {
    if retryAfter.Some? && retryAfter.value >= 0.0 then Min(retryAfter.value, cap)
    else Min(base * Power(attempt) + jitter, cap)
  }

  /** Without an advertised wait: base and jitter before the first retry, and twice the last base part each time after. */
  lemma BackoffDoubles(attempt: nat, base: real, jitter: real, cap: real)
    ensures base + jitter <= cap ==> Backoff(0, base, jitter, None, cap) == base + jitter
    ensures Backoff(attempt, base, jitter, None, cap) < cap && Backoff(attempt + 1, base, jitter, None, cap) < cap ==>
              Backoff(attempt + 1, base, jitter, None, cap) - jitter == 2.0 * (Backoff(attempt, base, jitter, None, cap) - jitter)
  {
    assert base * (2.0 * Power(attempt)) == 2.0 * (base * Power(attempt));
  }

  /** A longer run of failures never shortens the wait, jitter and advertised waits aside. */
  lemma {:induction false} BackoffGrows(attempt: nat, more: nat, base: real, jitter: real, cap: real)
    requires attempt <= more && base >= 0.0
    ensures Backoff(attempt, base, jitter, None, cap) <= Backoff(more, base, jitter, None, cap)
    decreases more
  {
    if attempt < more {
      BackoffGrows(attempt, more - 1, base, jitter, cap);
      PowerPositive(more - 1);
      Doubles(base, Power(more - 1), Power(more));
      CappedFollows(base * Power(more - 1), base * Power(more), jitter, cap);
    }
  }

  lemma CappedFollows(x: real, y: real, jitter: real, cap: real)
    requires x <= y
    ensures Min(x + jitter, cap) <= Min(y + jitter, cap)
  {
  }

  lemma Doubles(base: real, half: real, whole: real)
    requires base >= 0.0 && half >= 0.0 && whole == 2.0 * half
    ensures base * half <= base * whole
  {
    assert base * half >= 0.0;
    assert base * (2.0 * half) == 2.0 * (base * half);
  }

  lemma {:induction false} PowerPositive(n: nat)
    ensures Power(n) >= 1.0
  {
    if n > 0 {
      PowerPositive(n - 1);
    }
  }

  // ----- The loop -----

  ghost predicate Monotone(clock: nat -> real) {
    forall i: nat, j: nat :: i <= j ==> clock(i) <= clock(j)
  }

  predicate IsTransient(outcome: Outcome) {
    outcome.Fails? && outcome.failure.retryable
  }

  ghost predicate Transient(call: Call) {
    IsTransient(call.outcome)
  }

  /** The breaker was asked after this call and did not let the provider be called again. */
  ghost predicate Refused(call: Call) {
    call.ask.Some? && !call.ask.value.again
  }

  /**
   * A candidate of a resilient request is only given up on a transient failure once `retries` calls to it came
   * before, or when the breaker refuses it.
   */
  ghost predicate Persists(calls: seq<Call>, retries: int) {
    forall k :: 0 <= k < |calls| ==> PersistsAt(calls, k, retries)
  }

  ghost predicate PersistsAt(calls: seq<Call>, k: nat, retries: int)
    requires k < |calls|
  {
    calls[k].resilient && Transient(calls[k]) && (k + 1 < |calls| ==> calls[k + 1].candidate != calls[k].candidate) ==>
      Refused(calls[k]) || (0 <= retries <= k && calls[k - retries].candidate == calls[k].candidate)
  }

  /** The calls to one candidate, when they end as the attempts at it do. */
  lemma OwnPersists(calls: seq<Call>, candidate: nat, retries: int)
    requires forall k :: 0 <= k < |calls| ==> calls[k].candidate == candidate
    requires calls != [] && calls[|calls| - 1].resilient && Transient(calls[|calls| - 1]) ==>
               |calls| == retries + 1 || Refused(calls[|calls| - 1])
    ensures Persists(calls, retries)
  {
  }

  lemma JoinedPersists(calls: seq<Call>, his: seq<Call>, i: nat, retries: int)
    requires Persists(calls, retries) && Persists(his, retries)
    requires forall k :: 0 <= k < |calls| ==> calls[k].candidate < i
    requires forall k :: 0 <= k < |his| ==> his[k].candidate == i
    ensures Persists(calls + his, retries)
  {
    forall k | 0 <= k < |calls + his| ensures PersistsAt(calls + his, k, retries) {
      if k < |calls| {
        assert PersistsAt(calls, k, retries);
      } else {
        assert PersistsAt(his, k - |calls|, retries);
      }
    }
  }

  /** The calls one candidate received: each but the last failed transiently, `most` at the very most. */
  ghost predicate CandidateCalls(calls: seq<Call>, candidate: nat, entry: Entry, resilient: bool, most: nat) {
    |calls| <= most
    && (forall k :: 0 <= k < |calls| ==>
          calls[k].candidate == candidate && calls[k].entry == entry && calls[k].resilient == resilient)
    && forall k :: 0 <= k < |calls| - 1 ==> Transient(calls[k])
  }

  ghost predicate AllAdmitted(calls: seq<Call>) {
    forall k :: 0 <= k < |calls| ==> calls[k].admitted
  }

  lemma OneMoreCall(calls: seq<Call>, call: Call, candidate: nat, entry: Entry, resilient: bool, most: nat)
    requires CandidateCalls(calls, candidate, entry, resilient, most) && (calls == [] || Transient(calls[|calls| - 1]))
    requires call.candidate == candidate && call.entry == entry && call.resilient == resilient
    ensures CandidateCalls(calls + [call], candidate, entry, resilient, most + 1)
    ensures AllAdmitted(calls) && call.admitted ==> AllAdmitted(calls + [call])
  {
  }

  datatype Answer = Replied | NotInCatalog | GaveUp(cause: Cause)

  ghost predicate Concludes(answer: Answer, calls: seq<Call>) {
    match answer
    case Replied => calls != [] && calls[|calls| - 1].outcome.Reply?
    case NotInCatalog => calls != [] && calls[|calls| - 1].outcome.UnknownModel?
    case GaveUp(cause) =>
      if calls == [] then cause == Nothing
      else calls[|calls| - 1].outcome.Fails? && cause == Upstream(calls[|calls| - 1].outcome.failure)
  }

  function Tries(resilient: bool, retries: int): nat {
    if !resilient then 1 else if retries < 0 then 0 else retries + 1
  }

  // ----- What the gateway did -----

  /** What is given to the gateway: the breaker's two settings, the upstream, the peers and the clock. */
  datatype World = World(threshold: int, reset: real, upstream: nat -> Outcome, peerOpen: nat -> bool, clock: nat -> real)

  /** What the breaker was told, in order. */
  ghost function ReportsOf(log: seq<Deed>): seq<Report> {
    if log == [] then []
    else
      ReportsOf(log[..|log| - 1])
      + match log[|log| - 1]
        case Checks(check) => [Asked(check.provider)]
        case Calls(call) => call.reports
  }

  ghost function CallsIn(log: seq<Deed>): seq<Call> {
    if log == [] then []
    else CallsIn(log[..|log| - 1]) + if log[|log| - 1].Calls? then [log[|log| - 1].call] else []
  }

  ghost function ChecksIn(log: seq<Deed>): seq<Check> {
    if log == [] then []
    else ChecksIn(log[..|log| - 1]) + if log[|log| - 1].Checks? then [log[|log| - 1].check] else []
  }

  /** The reports an outcome leads to: a transient failure, then the question whether to try again. */
  ghost predicate HeededBy(outcome: Outcome, provider: string, resilient: bool, reports: seq<Report>) {
    match outcome
    case Reply => reports == if resilient then [Succeeded(provider)] else []
    case UnknownModel => reports == []
    case Fails(failure) =>
      if resilient && failure.retryable then
        1 <= |reports| <= 2 && reports[0].Failed? && reports[0].key == provider
        && (|reports| == 2 ==> reports[1] == Asked(provider))
      else reports == []
  }

  /** A deed after the earlier ones: the answers are those of the breaker, the peers and the upstream at that point. */
  ghost predicate Follows(deed: Deed, log: seq<Deed>, world: World) {
    match deed
    case Checks(check) =>
      (check.admitted <==> MayCall(world.threshold, world.reset, ReportsOf(log), check.provider, world.clock(check.tick)))
      && (check.peer <==> world.peerOpen(check.tick))
    case Calls(call) =>
      (call.admitted <==> MayCall(world.threshold, world.reset, ReportsOf(log), call.entry.provider, call.at))
      && call.outcome == world.upstream(|CallsIn(log)|)
      && HeededBy(call.outcome, call.entry.provider, call.resilient, call.reports)
      && AskedOf(call, ReportsOf(log), world)
  }

  /** The question is put right after the failure is reported, if at all. */
  ghost predicate AskedOf(call: Call, history: seq<Report>, world: World) {
    match call.ask
    case None => |call.reports| <= 1
    case Some(ask) =>
      |call.reports| == 2
      && (ask.again <==>
          MayCall(world.threshold, world.reset, history + [call.reports[0]], call.entry.provider, ask.at))
  }

  ghost predicate Happened(log: seq<Deed>, world: World) {
    log == [] || (Happened(log[..|log| - 1], world) && Follows(log[|log| - 1], log[..|log| - 1], world))
  }

  lemma OneMoreDeed(log: seq<Deed>, deed: Deed, world: World)
    requires Happened(log, world) && Follows(deed, log, world)
    ensures Happened(log + [deed], world)
    ensures CallsIn(log + [deed]) == CallsIn(log) + if deed.Calls? then [deed.call] else []
    ensures ChecksIn(log + [deed]) == ChecksIn(log) + if deed.Checks? then [deed.check] else []
    ensures ReportsOf(log + [deed]) ==
            ReportsOf(log) + if deed.Calls? then deed.call.reports else [Asked(deed.check.provider)]
  {
    assert (log + [deed])[..|log + [deed]| - 1] == log;
  }

  class Gateway {
    const breaker: CircuitBreaker
    const retries: int
    const backoffBase: real
    const backoffCap: real
    /** The runner's outcome of each upstream call, what peers report at each check, and the clock. */
    const upstream: nat -> Outcome
    const peerOpen: nat -> bool
    const jitter: nat -> real
    const clock: nat -> real
    var ticks: nat
    var traces: seq<Trace>
    /** Upstream calls made and waits taken so far. */
    var made: nat
    var waited: nat

    /** Every check and every upstream call so far. */
    ghost var log: seq<Deed>

    ghost function Around(): World {
      World(breaker.threshold, breaker.reset, upstream, peerOpen, clock)
    }

    /** The gateway did what its log says, and its breaker was told that and nothing else. */
    ghost predicate Valid()
      reads this`log, this`made, breaker
    {
      breaker.Valid() && breaker.history == ReportsOf(log) && made == |CallsIn(log)| && Happened(log, Around())
    }

    constructor (
      threshold: int, reset: real, retries: int, backoffBase: real, backoffCap: real, upstream: nat -> Outcome,
      peerOpen: nat -> bool, jitter: nat -> real, clock: nat -> real)
      ensures Valid() && fresh(breaker) && log == [] && traces == []
    {
      breaker := new CircuitBreaker(threshold, reset);
      this.retries, this.backoffBase, this.backoffCap := retries, backoffBase, backoffCap;
      this.upstream, this.peerOpen, this.jitter, this.clock := upstream, peerOpen, jitter, clock;
      ticks, traces, made, waited, log := 0, [], 0, 0, [];
    }

    method Now() returns (now: real)
      modifies this`ticks
      ensures now == clock(old(ticks)) && ticks == old(ticks) + 1
    {
      now := clock(ticks);
      ticks := ticks + 1;
    }

    ghost predicate Admits(entry: Entry, at: real)
      reads this, breaker
    {
      MayCall(breaker.threshold, breaker.reset, breaker.history, entry.provider, at)
    }

    /** Reports a failed attempt to the breaker; `again` when the same candidate is to be tried once more. */
    method AfterFailure(entry: Entry, failure: Failure, resilient: bool, left: bool)
      returns (again: bool, ghost reports: seq<Report>, ghost ask: Option<Ask>)
      requires breaker.Valid()
      modifies this`ticks, breaker
      ensures breaker.Valid() && breaker.history == old(breaker.history) + reports
      ensures reports == if !(resilient && failure.retryable) then []
                         else [Failed(entry.provider, clock(old(ticks)))] + if left then [Asked(entry.provider)] else []
      ensures ask.Some? <==> resilient && failure.retryable && left
      ensures again <==> ask.Some? && ask.value.again
      ensures ask.Some? ==>
                (again <==>
                 MayCall(breaker.threshold, breaker.reset, old(breaker.history) + [reports[0]], entry.provider, ask.value.at))
      ensures again && Monotone(clock) ==> Admits(entry, clock(ticks))
    {
      again, reports, ask := false, [], None;
      if resilient && failure.retryable {
        var failedAt := Now();
        var trips := breaker.OnFailure(entry.provider, failedAt);
        reports := [Failed(entry.provider, failedAt)];
        if left {
          var askedAt := Now();
          again := breaker.Allow(entry.provider, askedAt);
          reports, ask := reports + [Asked(entry.provider)], Some(Ask(askedAt, again));
          if again && Monotone(clock) {
            TrialComesDue(breaker.threshold, breaker.reset, breaker.history, entry.provider, askedAt, clock(ticks));
          }
        }
      }
    }

    /** Reports an outcome to the breaker, and says how long to wait when the attempt is to be repeated. */
    method Heed(entry: Entry, outcome: Outcome, resilient: bool, attempt: nat)
      returns (wait: Option<real>, ghost reports: seq<Report>, ghost ask: Option<Ask>)
      requires breaker.Valid()
      modifies this`ticks, this`waited, breaker
      ensures breaker.Valid() && breaker.history == old(breaker.history) + reports
      ensures HeededBy(outcome, entry.provider, resilient, reports)
      ensures waited == old(waited) + if wait.Some? then 1 else 0
      ensures ask.Some? <==> resilient && outcome.Fails? && outcome.failure.retryable && attempt < retries
      ensures wait.Some? <==> ask.Some? && ask.value.again
      ensures wait.Some? ==>
                wait.value == Backoff(attempt, backoffBase, jitter(old(waited)), outcome.failure.retryAfter, backoffCap)
      ensures match ask
              case None => |reports| <= 1
              case Some(a) =>
                |reports| == 2
                && (a.again <==>
                    MayCall(breaker.threshold, breaker.reset, old(breaker.history) + [reports[0]], entry.provider, a.at))
      ensures wait.Some? && Monotone(clock) ==> Admits(entry, clock(ticks))
    {
      wait, reports, ask := None, [], None;
      match outcome {
        case Reply =>
          if resilient {
            var closed := breaker.OnSuccess(entry.provider);
            reports := [Succeeded(entry.provider)];
          }
        case UnknownModel =>
        case Fails(failure) =>
          var again;
          again, reports, ask := AfterFailure(entry, failure, resilient, attempt < retries);
          if again {
            wait := Some(Backoff(attempt, backoffBase, jitter(waited), failure.retryAfter, backoffCap));
            waited := waited + 1;
          }
      }
    }

    /** Each wait is the backoff after the call before it: its attempt, a fresh jitter and the advertised wait. */
    ghost predicate Spaced(waits: seq<real>, calls: seq<Call>, since: nat)
      requires |waits| <= |calls|
    {
      forall k :: 0 <= k < |waits| ==>
        calls[k].outcome.Fails?
        && waits[k] == Backoff(k, backoffBase, jitter(since + k), calls[k].outcome.failure.retryAfter, backoffCap)
    }

    lemma SpacedOnce(
      waits: seq<real>, calls: seq<Call>, since: nat, call: Call, wait: real, attempt: nat, draw: nat, failure: Failure)
      requires attempt == |waits| == |calls| && draw == since + attempt && Spaced(waits, calls, since)
      requires call.outcome == Fails(failure)
      requires wait == Backoff(attempt, backoffBase, jitter(draw), failure.retryAfter, backoffCap)
      ensures Spaced(waits + [wait], calls + [call], since)
    {
    }

    /** One attempt: the call, the report to the breaker, and the wait when it is to be repeated. */
    method Attempt(candidate: nat, entry: Entry, resilient: bool, attempt: nat)
      returns (outcome: Outcome, wait: Option<real>, ghost call: Call)
      requires Valid()
      requires resilient && Monotone(clock) ==> Admits(entry, clock(ticks))
      modifies this`ticks, this`made, this`waited, this`log, breaker
      ensures Valid() && CallsIn(log) == old(CallsIn(log)) + [call] && ChecksIn(log) == old(ChecksIn(log))
      ensures call.candidate == candidate && call.entry == entry && call.resilient == resilient && call.outcome == outcome
      ensures resilient && Monotone(clock) ==> call.admitted
      ensures waited == old(waited) + if wait.Some? then 1 else 0
      ensures call.ask.Some? <==> resilient && Transient(call) && attempt < retries
      ensures wait.Some? <==> call.ask.Some? && call.ask.value.again
      ensures wait.Some? ==>
                wait.value == Backoff(attempt, backoffBase, jitter(old(waited)), outcome.failure.retryAfter, backoffCap)
      ensures wait.Some? && Monotone(clock) ==> Admits(entry, clock(ticks))
    {
      var at := Now();
      ghost var admitted := Admits(entry, at);
      outcome := upstream(made);
      made := made + 1;
      ghost var reports, ask;
      wait, reports, ask := Heed(entry, outcome, resilient, attempt);
      call := Call(candidate, entry, resilient, at, admitted, outcome, reports, ask);
      OneMoreDeed(log, Calls(call), Around());
      log := log + [Calls(call)];
    }

    /**
     * The attempts at one candidate. A transient failure with attempts left is given up only when the breaker
     * no longer lets the provider be called.
     */
    method TryCandidate(candidate: nat, entry: Entry, resilient: bool, firstReason: Option<Cause>)
      returns (answer: Answer, first: Option<Cause>, ghost mine: seq<Call>, ghost waits: seq<real>)
      requires Valid()
      requires resilient && Monotone(clock) ==> Admits(entry, clock(ticks))
      modifies this`ticks, this`made, this`waited, this`log, breaker
      ensures Valid() && CallsIn(log) == old(CallsIn(log)) + mine && ChecksIn(log) == old(ChecksIn(log))
      ensures CandidateCalls(mine, candidate, entry, resilient, Tries(resilient, retries))
      ensures Concludes(answer, mine)
      ensures resilient && Monotone(clock) ==> AllAdmitted(mine)
      ensures resilient && mine != [] && Transient(mine[|mine| - 1]) ==> |mine| == retries + 1 || Refused(mine[|mine| - 1])
      ensures if resilient && retries < 0 then mine == [] else 1 <= |mine| <= if resilient then retries + 1 else 1
      ensures waited == old(waited) + |waits|
      ensures |mine| - 1 <= |waits| <= |mine| && Spaced(waits, mine, old(waited))
      ensures first == if firstReason.Some? || waits == [] then firstReason else Some(Upstream(mine[0].outcome.failure))
    {
      first := firstReason;
      answer, mine, waits := GaveUp(Nothing), [], [];
      for attempt := 0 to Tries(resilient, retries)
        invariant Valid() && CallsIn(log) == old(CallsIn(log)) + mine && ChecksIn(log) == old(ChecksIn(log))
        invariant resilient && Monotone(clock) ==> Admits(entry, clock(ticks))
        invariant |mine| == attempt && CandidateCalls(mine, candidate, entry, resilient, attempt)
        invariant mine == [] || Transient(mine[|mine| - 1])
        invariant resilient && Monotone(clock) ==> AllAdmitted(mine)
        invariant waited == old(waited) + |waits| && |waits| == attempt && (attempt > 0 ==> attempt <= retries)
        invariant Spaced(waits, mine, old(waited))
        invariant first == if firstReason.Some? || mine == [] then firstReason else Some(Upstream(mine[0].outcome.failure))
        invariant answer == if mine == [] then GaveUp(Nothing) else GaveUp(Upstream(mine[|mine| - 1].outcome.failure))
      {
        var outcome, wait;
        ghost var call;
        ghost var draw := waited;
        outcome, wait, call := Attempt(candidate, entry, resilient, attempt);
        OneMoreCall(mine, call, candidate, entry, resilient, attempt);
        ghost var before := mine;
        mine := mine + [call];
        assert CallsIn(log) == old(CallsIn(log)) + mine;
        match outcome {
          case Reply =>
            answer := Replied;
            break;
          case UnknownModel =>
            answer := NotInCatalog;
            break;
          case Fails(failure) =>
            answer := GaveUp(Upstream(failure));
            if wait.None? {
              break;
            }
            if first.None? {
              first := Some(Upstream(failure));
            }
            SpacedOnce(waits, before, old(waited), call, wait.value, attempt, draw, failure);
            waits := waits + [wait.value];
        }
      }
    }

    /** The check before a candidate is tried: its own breaker first, then what the peers report. */
    method CheckCandidate(entry: Entry) returns (open: bool, ghost check: Check)
      requires Valid()
      modifies this`ticks, this`log, breaker
      ensures Valid() && CallsIn(log) == old(CallsIn(log)) && ChecksIn(log) == old(ChecksIn(log)) + [check]
      ensures open == ShortCircuits(check) == !old(FirstPasses(entry)) && check.provider == entry.provider
      ensures !open && Monotone(clock) ==> Admits(entry, clock(ticks))
    {
      ghost var tick := ticks;
      var peerSays := peerOpen(ticks);
      var askedAt := Now();
      var may := breaker.Allow(entry.provider, askedAt);
      check := Check(entry.provider, tick, may, peerSays);
      open := !may || peerSays;
      if may && Monotone(clock) {
        TrialComesDue(breaker.threshold, breaker.reset, breaker.history, entry.provider, askedAt, clock(ticks));
      }
      OneMoreDeed(log, Checks(check), Around());
      log := log + [Checks(check)];
    }

    /** Tries a candidate that passed its check, and closes its trace. A null failure counts as an exception of its own. */
    method Try(
      i: nat, entry: Entry, resilient: bool, more: bool, firstReason: Option<Cause>, ghost checks: seq<Check>,
      ghost limits: Limits)
      returns (verdict: Option<Result>, first: Option<Cause>, ghost j: Journal)
      requires Valid() && limits == LimitsOf(resilient, limits.failClosed)
      requires resilient && Monotone(clock) ==> Admits(entry, clock(ticks))
      requires if resilient then |checks| == 1 && !ShortCircuits(checks[0]) else checks == []
      requires ChecksOf(checks, [entry])
      modifies this`ticks, this`made, this`waited, this`log, this`traces, breaker
      ensures Valid() && ChecksIn(log) == old(ChecksIn(log)) && j.checks == checks
      ensures CallsIn(log) == old(CallsIn(log)) + j.calls && traces == old(traces) + j.traces
      ensures waited == old(waited) + |j.sleeps|
      ensures IsVisit(verdict, j, i, entry, more, limits)
      ensures verdict.None? ==> first == if firstReason.Some? then firstReason else Some(FirstReason(j))
    {
      var answer;
      ghost var mine, waits;
      answer, first, mine, waits := TryCandidate(i, entry, resilient, firstReason);
      match answer {
        case Replied =>
          traces := traces + [Trace(entry.id, None)];
          verdict := Some(Served(entry.id));
        case NotInCatalog =>
          verdict := Some(Unknown);
        case GaveUp(cause) =>
          traces := traces + [Trace(entry.id, Some(cause))];
          if first.None? {
            first := Some(cause);
          }
          verdict := if resilient && cause.Upstream? && cause.failure.retryable && more then None else Some(Raised(cause));
      }
      j := Journal(TraceOf(answer, entry), mine, waits, checks);
      OwnPersists(mine, i, retries);
      TriedVisit(answer, verdict, j, i, entry, more, limits);
    }

    /** One pass of the outer loop. `verdict` is how the request ends here, or none to go on to the next candidate. */
    method Visit(i: nat, entry: Entry, resilient: bool, failClosed: bool, more: bool, firstReason: Option<Cause>)
      returns (verdict: Option<Result>, first: Option<Cause>, ghost j: Journal)
      requires Valid()
      modifies this`ticks, this`made, this`waited, this`log, this`traces, breaker
      ensures Valid() && Leads(j, old(Here()), Here())
      ensures IsVisit(verdict, j, i, entry, more, LimitsOf(resilient, failClosed))
      ensures resilient ==> j.checks != [] && (ShortCircuits(j.checks[0]) <==> !old(FirstPasses(entry)))
      ensures verdict.None? ==> first == if firstReason.Some? then firstReason else Some(FirstReason(j))
    {
      ghost var checks: seq<Check> := [];
      if resilient {
        var open;
        ghost var check;
        open, check := CheckCandidate(entry);
        checks := [check];
        if open {
          traces := traces + [Skipped(entry)];
          first := if firstReason.Some? then firstReason else Some(CircuitOpen(entry.provider));
          j := Journal([Skipped(entry)], [], [], checks);
          verdict := if failClosed then Some(Degraded) else None;
          SkippedVisit(check, i, entry, more, LimitsOf(true, failClosed));
          return;
        }
      }
      verdict, first, j := Try(i, entry, resilient, more, firstReason, checks, LimitsOf(resilient, failClosed));
    }

    ghost function Here(): Mark
      reads this
    {
      Mark(traces, CallsIn(log), waited, ChecksIn(log))
    }

    ghost function LimitsOf(resilient: bool, failClosed: bool): Limits {
      Limits(Tries(resilient, retries), retries, backoffCap, resilient, resilient && Monotone(clock), failClosed)
    }

    /** Whether the first candidate passes its check as things stand. */
    ghost predicate FirstPasses(entry: Entry)
      reads this, breaker
    {
      Admits(entry, clock(ticks)) && !peerOpen(ticks)
    }

    /** The pass of candidate `i` as the request's journal sees it. */
    method Advance(
      i: nat, entries: seq<Entry>, resilient: bool, failClosed: bool, firstReason: Option<Cause>, ghost before: Journal,
      ghost start: Mark)
      returns (verdict: Option<Result>, first: Option<Cause>, ghost j: Journal)
      requires Valid() && i < |entries|
      requires SoFar(None, before, entries, i, LimitsOf(resilient, failClosed)) && Leads(before, start, Here())
      requires firstReason == if i == 0 then None else Some(FirstReason(before))
      modifies this`ticks, this`made, this`waited, this`log, this`traces, breaker
      ensures Valid() && Leads(j, start, Here())
      ensures SoFar(verdict, j, entries, i + 1, LimitsOf(resilient, failClosed))
      ensures verdict.None? ==> first == Some(FirstReason(j))
      ensures resilient ==> before.checks <= j.checks && |j.checks| == i + 1
      ensures resilient && i == 0 ==> (ShortCircuits(j.checks[i]) <==> !old(FirstPasses(entries[i])))
    {
      ghost var his;
      verdict, first, his := Visit(i, entries[i], resilient, failClosed, i + 1 < |entries|, firstReason);
      JoinedLeads(before, his, start, old(Here()), Here());
      FirstReasonStays(before, his, entries, i, LimitsOf(resilient, failClosed));
      VisitAdvances(verdict, before, his, entries, i, LimitsOf(resilient, failClosed));
      j := Joined(before, his);
    }

    /** The outer loop: candidates in order, until one ends the request. */
    method TryInOrder(entries: seq<Entry>, resilient: bool, failClosed: bool)
      returns (result: Result, ghost visited: nat, ghost j: Journal)
      requires Valid() && entries != []
      modifies this`ticks, this`made, this`waited, this`log, this`traces, breaker
      ensures Valid() && Leads(j, old(Here()), Here())
      ensures Dispatched(result, j, entries, visited, LimitsOf(resilient, failClosed))
      ensures resilient ==> j.checks != [] && (ShortCircuits(j.checks[0]) <==> !old(FirstPasses(entries[0])))
    {
      ghost var limits := LimitsOf(resilient, failClosed);
      ghost var passes := FirstPasses(entries[0]);
      ghost var start := Here();
      j, visited := Journal([], [], [], []), 0;
      NothingYet(entries, limits, start);
      var first: Option<Cause>, verdict: Option<Result> := None, None;
      for i := 0 to |entries|
        invariant verdict == None && visited == i
        invariant Valid() && Leads(j, start, Here())
        invariant first == if i == 0 then None else Some(FirstReason(j))
        invariant SoFar(None, j, entries, i, limits)
        invariant if i == 0 then passes == FirstPasses(entries[0])
                  else resilient ==> |j.checks| == i && (ShortCircuits(j.checks[0]) <==> !passes)
      {
        verdict, first, j := Advance(i, entries, resilient, failClosed, first, j, start);
        visited := i + 1;
        if verdict.Some? {
          break;
        }
      }
      if verdict.None? {
        verdict := Some(Raised(first.value));
        AllPassedOver(j, entries, limits);
      }
      result := verdict.value;
    }

    /**
     * The dispatch part of `complete`. `fallBack` is whether the request may fall back at all. The caller
     * gets one trace per visited candidate, in order, with only the last one ok exactly when it is served.
     */
    method Complete(planned: Entry, catalog: seq<Entry>, resilient: bool, fallBack: bool, failClosed: bool)
      returns (result: Result, ghost visited: nat, ghost candidates: seq<Entry>, ghost j: Journal)
      requires Valid()
      modifies this`ticks, this`made, this`waited, this`log, this`traces, breaker
      ensures Valid() && Leads(j, old(Here()), Here())
      ensures candidates == CandidatesOf(catalog, planned, resilient && fallBack && planned.lane != "provider")
      ensures Dispatched(result, j, candidates, visited, LimitsOf(resilient, failClosed))
      ensures Persists(j.calls, retries)
      ensures if resilient then AtMostEach(j.calls, retries + 1) else |j.calls| == 1
      ensures ResolvesWithin(catalog, planned) ==> StaysWithin(j.calls, planned)
      ensures ResolvesToReal(catalog, planned) ==> NeverFakeFallback(j.calls)
      ensures resilient && retries < 0 && old(FirstPasses(planned)) ==> result == Raised(Nothing)
      ensures resilient && retries < 0 && old(log) == [] && !peerOpen(old(ticks)) ==> result == Raised(Nothing)
      ensures resilient && retries >= 1 && old(log) == [] && !peerOpen(old(ticks)) && breaker.threshold > 1 ==>
                (IsTransient(upstream(0)) && upstream(1).Reply? ==> result == Served(planned.id))
    {
      var entries := Candidates(catalog, planned, resilient && fallBack && planned.lane != "provider");
      candidates := entries;
      result, visited, j := TryInOrder(entries, resilient, failClosed);
      Settled(
        result, j, catalog, planned, resilient && fallBack && planned.lane != "provider", visited,
        LimitsOf(resilient, failClosed), log, Around());
    }
  }

  // ----- What a request leaves behind -----

  predicate ShortCircuits(check: Check) {
    !check.admitted || check.peer
  }

  /** Where the gateway stands: its sink, its calls so far, the number of its waits, and its checks. */
  datatype Mark = Mark(traces: seq<Trace>, calls: seq<Call>, waited: nat, checks: seq<Check>)

  /** What was added to the sink, to the upstream calls and to the waits, and the checks made. */
  datatype Journal = Journal(traces: seq<Trace>, calls: seq<Call>, sleeps: seq<real>, checks: seq<Check>)

  /**
   * `tries` attempts a candidate and waits up to `cap`; `watched` when every call must have been admitted, and
   * `failClosed` when an open circuit ends the request.
   */
  datatype Limits = Limits(tries: nat, retries: int, cap: real, resilient: bool, watched: bool, failClosed: bool)

  /** The journal leads from one mark to another. */
  ghost predicate Leads(j: Journal, start: Mark, end: Mark) {
    end == Mark(start.traces + j.traces, start.calls + j.calls, start.waited + |j.sleeps|, start.checks + j.checks)
  }

  /** The last call a candidate received. */
  ghost function LastOf(calls: seq<Call>, i: nat): Option<Call> {
    if calls == [] then None
    else if calls[|calls| - 1].candidate == i then Some(calls[|calls| - 1])
    else LastOf(calls[..|calls| - 1], i)
  }

  lemma LastOfOwn(calls: seq<Call>, i: nat)
    requires forall k :: 0 <= k < |calls| ==> calls[k].candidate == i
    ensures LastOf(calls, i) == if calls == [] then None else Some(calls[|calls| - 1])
  {
  }

  lemma {:induction false} LastOfOthers(calls: seq<Call>, i: nat)
    requires forall k :: 0 <= k < |calls| ==> calls[k].candidate != i
    ensures LastOf(calls, i) == None
  {
    if calls != [] {
      LastOfOthers(calls[..|calls| - 1], i);
    }
  }

  lemma {:induction false} LastOfJoined(calls: seq<Call>, his: seq<Call>, i: nat)
    ensures LastOf(calls + his, i) == if LastOf(his, i).Some? then LastOf(his, i) else LastOf(calls, i)
  {
    if his == [] {
      assert calls + his == calls;
    } else {
      assert (calls + his)[..|calls + his| - 1] == calls + his[..|his| - 1];
      LastOfJoined(calls, his[..|his| - 1], i);
    }
  }

  /** A trace tells what became of its candidate's last call, or that there was none. */
  ghost predicate Tells(trace: Trace, entry: Entry, last: Option<Call>) {
    trace.modelId == entry.id
    && match trace.error
       case None => last.Some? && last.value.outcome.Reply?
       case Some(CircuitOpen(provider)) => last.None? && provider == entry.provider
       case Some(Upstream(failure)) => last.Some? && last.value.outcome == Fails(failure)
       case Some(Nothing) => last.None?
  }

  /** Every trace tells of its own candidate. */
  ghost predicate Told(traces: seq<Trace>, calls: seq<Call>, candidates: seq<Entry>) {
    |traces| <= |candidates| && forall k :: 0 <= k < |traces| ==> Tells(traces[k], candidates[k], LastOf(calls, k))
  }

  ghost predicate ShortCircuited(trace: Trace) {
    trace.error.Some? && trace.error.value.CircuitOpen?
  }

  /** Why the request was not served by its first attempt: an open circuit or its first call's failure. */
  ghost function FirstReason(j: Journal): Cause {
    if j.traces != [] && ShortCircuited(j.traces[0]) then j.traces[0].error.value
    else if j.calls != [] && j.calls[0].outcome.Fails? then Upstream(j.calls[0].outcome.failure)
    else Nothing
  }

  ghost predicate Within(j: Journal, limits: Limits, visited: nat) {
    |j.calls| <= limits.tries * visited && |j.sleeps| <= limits.tries * visited
    && (forall k :: 0 <= k < |j.sleeps| ==> j.sleeps[k] <= limits.cap)
    && (forall k :: 0 <= k < |j.calls| ==>
          j.calls[k].resilient == limits.resilient && (limits.watched ==> j.calls[k].admitted))
    && forall k :: 0 <= k < |j.calls| - 1 ==> Transient(j.calls[k])
  }

  /** The checks are those of the first candidates' providers, in order. */
  ghost predicate ChecksOf(checks: seq<Check>, candidates: seq<Entry>) {
    |checks| <= |candidates| && forall k :: 0 <= k < |checks| ==> checks[k].provider == candidates[k].provider
  }

  /** A candidate is short-circuited exactly when its check says so, and unchecked ones never are. */
  ghost predicate Checked(j: Journal, limits: Limits, visited: nat) {
    |j.checks| == (if limits.resilient then visited else 0) && |j.traces| <= visited
    && forall k :: 0 <= k < |j.traces| ==>
         (ShortCircuited(j.traces[k]) <==> limits.resilient && ShortCircuits(j.checks[k]))
  }

  /** One candidate's pass: at most one trace, and the verdict that goes with it. */
  ghost predicate IsVisit(verdict: Option<Result>, j: Journal, i: nat, entry: Entry, more: bool, limits: Limits) {
    match verdict
    case Some(Unknown) => Bounded(j, i, entry, limits) && j.traces == [] && NotKnown(LastOf(j.calls, i))
    case _ =>
      Bounded(j, i, entry, limits) && |j.traces| == 1 && Tells(j.traces[0], entry, LastOf(j.calls, i))
      && Ends(verdict, j.traces[0], limits, more)
      && (j.calls == [] ==> ShortCircuited(j.traces[0]) || limits.tries == 0)
  }

  /** The trace written for a candidate that was tried. */
  ghost function TraceOf(answer: Answer, entry: Entry): seq<Trace> {
    match answer
    case Replied => [Trace(entry.id, None)]
    case NotInCatalog => []
    case GaveUp(cause) => [Trace(entry.id, Some(cause))]
  }

  function Skipped(entry: Entry): Trace {
    Trace(entry.id, Some(CircuitOpen(entry.provider)))
  }

  lemma SkippedVisit(check: Check, i: nat, entry: Entry, more: bool, limits: Limits)
    requires limits.resilient && ShortCircuits(check) && check.provider == entry.provider
    ensures IsVisit(
              if limits.failClosed then Some(Degraded) else None,
              Journal([Skipped(entry)], [], [], [check]), i, entry, more, limits)
  {
  }

  ghost predicate VerdictFits(answer: Answer, verdict: Option<Result>, entry: Entry, more: bool, limits: Limits) {
    match answer
    case Replied => verdict == Some(Served(entry.id))
    case NotInCatalog => verdict == Some(Unknown)
    case GaveUp(cause) =>
      verdict == if limits.resilient && cause.Upstream? && cause.failure.retryable && more then None else Some(Raised(cause))
  }

  lemma TriedVisit(answer: Answer, verdict: Option<Result>, j: Journal, i: nat, entry: Entry, more: bool, limits: Limits)
    requires CandidateCalls(j.calls, i, entry, limits.resilient, limits.tries) && Persists(j.calls, limits.retries)
    requires Concludes(answer, j.calls) && (j.calls == [] ==> limits.tries == 0)
    requires |j.sleeps| <= limits.tries && forall k :: 0 <= k < |j.sleeps| ==> j.sleeps[k] <= limits.cap
    requires limits.watched ==> forall k :: 0 <= k < |j.calls| ==> j.calls[k].admitted
    requires if limits.resilient then |j.checks| == 1 && !ShortCircuits(j.checks[0]) else j.checks == []
    requires ChecksOf(j.checks, [entry])
    requires j.traces == TraceOf(answer, entry) && VerdictFits(answer, verdict, entry, more, limits)
    ensures IsVisit(verdict, j, i, entry, more, limits)
  {
    LastOfOwn(j.calls, i);
  }

  ghost predicate NotKnown(last: Option<Call>) {
    last.Some? && last.value.outcome.UnknownModel?
  }

  ghost predicate Bounded(j: Journal, i: nat, entry: Entry, limits: Limits) {
    Within(j, limits, 1) && Checked(j, limits, 1) && ChecksOf(j.checks, [entry])
    && CandidateCalls(j.calls, i, entry, limits.resilient, limits.tries) && Persists(j.calls, limits.retries)
  }

  /** A candidate the request moves on from: its circuit is open, or its last failure is transient. */
  ghost predicate GivenUp(trace: Trace, limits: Limits) {
    limits.resilient && trace.error.Some?
    && match trace.error.value
       case CircuitOpen(_) => !limits.failClosed
       case Upstream(failure) => failure.retryable
       case Nothing => false
  }

  /** How a visited candidate's trace and the verdict go together. */
  ghost predicate Ends(verdict: Option<Result>, trace: Trace, limits: Limits, more: bool) {
    match verdict
    case None => GivenUp(trace, limits) && (ShortCircuited(trace) || more)
    case Some(Served(modelId)) => trace.error.None? && modelId == trace.modelId
    case Some(Raised(cause)) => trace.error == Some(cause) && !cause.CircuitOpen? && !(more && GivenUp(trace, limits))
    case Some(Degraded) => limits.failClosed && ShortCircuited(trace)
    case Some(Unknown) => false
  }

  /** The first candidates were all given up: an open circuit or transient failures only. */
  ghost predicate PassedOver(j: Journal, candidates: seq<Entry>, visited: nat, limits: Limits) {
    |j.traces| == visited <= |candidates|
    && Told(j.traces, j.calls, candidates) && (forall k :: 0 <= k < visited ==> GivenUp(j.traces[k], limits))
    && (visited == |candidates| && visited > 0 ==> ShortCircuited(j.traces[visited - 1]))
    && CallsOf(j.calls, candidates, visited, limits.tries) && Persists(j.calls, limits.retries)
    && Within(j, limits, visited)
    && Checked(j, limits, visited) && ChecksOf(j.checks, candidates)
  }

  /** A request after some candidates: under way, or ended by the verdict. */
  ghost predicate SoFar(verdict: Option<Result>, j: Journal, candidates: seq<Entry>, visited: nat, limits: Limits) {
    match verdict
    case None => PassedOver(j, candidates, visited, limits)
    case Some(result) => Dispatched(result, j, candidates, visited, limits)
  }

  /**
   * The account of a whole request. One finalised trace per visited candidate, in order, each telling what
   * became of that candidate's last call, none ok but the last one of a served request (a model the registry
   * does not know is raised before its trace is written); at most `tries` calls per candidate, none after a
   * failure that is not transient; a candidate is skipped exactly when its check says so; and the exception
   * raised is the last candidate's own, or the request's first reason when that one was skipped.
   */
  ghost predicate Dispatched(result: Result, j: Journal, candidates: seq<Entry>, visited: nat, limits: Limits) {
    match result
    case Unknown =>
      Visited(j, candidates, visited, limits) && |j.traces| == visited - 1
      && NotKnown(LastOf(j.calls, visited - 1))
    case _ =>
      Visited(j, candidates, visited, limits) && |j.traces| == visited
      && ClosedBy(result, FirstReason(j), j.traces[visited - 1], visited == |candidates|, limits)
  }

  ghost predicate Visited(j: Journal, candidates: seq<Entry>, visited: nat, limits: Limits) {
    1 <= visited <= |candidates| && visited - 1 <= |j.traces| <= visited
    && Told(j.traces, j.calls, candidates) && (forall k :: 0 <= k < visited - 1 ==> GivenUp(j.traces[k], limits))
    && CallsOf(j.calls, candidates, visited, limits.tries) && Persists(j.calls, limits.retries)
    && Within(j, limits, visited)
    && Checked(j, limits, visited) && ChecksOf(j.checks, candidates)
  }

  /**
   * How the last visited candidate's trace and the result go together. `first` is the request's first reason,
   * and `all` whether no candidate is left. The null exception is raised exactly when nothing may be tried.
   */
  ghost predicate ClosedBy(result: Result, first: Cause, last: Trace, all: bool, limits: Limits) {
    match result
    case Served(modelId) => last.error.None? && modelId == last.modelId
    case Degraded => limits.failClosed && ShortCircuited(last)
    case Raised(cause) =>
      (if ShortCircuited(last) then all && !limits.failClosed && cause == first
       else last.error == Some(cause) && (all || !GivenUp(last, limits)))
      && (cause == Nothing <==> limits.tries == 0 && !ShortCircuited(last))
    case Unknown => false
  }

  /** The calls of the first candidates, in order of candidates, `tries` to each at the very most. */
  ghost predicate CallsOf(calls: seq<Call>, candidates: seq<Entry>, visited: nat, tries: nat) {
    (forall k :: 0 <= k < |calls| ==>
       calls[k].candidate < visited && calls[k].candidate < |candidates| && calls[k].entry == candidates[calls[k].candidate])
    && (forall k, l :: 0 <= k <= l < |calls| ==> calls[k].candidate <= calls[l].candidate)
    && forall k :: 0 <= k < |calls| - tries ==> calls[k].candidate < calls[k + tries].candidate
  }

  function Joined(j: Journal, his: Journal): Journal {
    Journal(j.traces + his.traces, j.calls + his.calls, j.sleeps + his.sleeps, j.checks + his.checks)
  }

  lemma JoinedLeads(j: Journal, his: Journal, start: Mark, middle: Mark, end: Mark)
    requires Leads(j, start, middle) && Leads(his, middle, end)
    ensures Leads(Joined(j, his), start, end)
  {
    assert end.traces == start.traces + (j.traces + his.traces);
    assert end.calls == start.calls + (j.calls + his.calls);
    assert end.checks == start.checks + (j.checks + his.checks);
  }

  lemma JoinedCalls(j: Journal, his: Journal, candidates: seq<Entry>, i: nat, limits: Limits)
    requires i < |candidates| && CallsOf(j.calls, candidates, i, limits.tries)
    requires CandidateCalls(his.calls, i, candidates[i], limits.resilient, limits.tries)
    ensures CallsOf(Joined(j, his).calls, candidates, i + 1, limits.tries)
  {
  }

  lemma JoinedWithin(j: Journal, his: Journal, i: nat, limits: Limits)
    requires Within(j, limits, i) && Within(his, limits, 1) && forall k :: 0 <= k < |j.calls| ==> Transient(j.calls[k])
    ensures Within(Joined(j, his), limits, i + 1)
  {
  }

  lemma JoinedChecked(j: Journal, his: Journal, candidates: seq<Entry>, i: nat, limits: Limits)
    requires Checked(j, limits, i) && |j.traces| == i && Checked(his, limits, 1)
    requires i < |candidates| && ChecksOf(j.checks, candidates) && ChecksOf(his.checks, [candidates[i]])
    ensures Checked(Joined(j, his), limits, i + 1) && ChecksOf(Joined(j, his).checks, candidates)
  {
  }

  /** Joining another candidate's calls leaves what the earlier traces tell, and the new trace tells of its own. */
  lemma JoinedTells(j: Journal, his: Journal, candidates: seq<Entry>, i: nat, limits: Limits)
    requires i < |candidates| && CallsOf(j.calls, candidates, i, limits.tries)
    requires |j.traces| == i && Told(j.traces, j.calls, candidates)
    requires forall k :: 0 <= k < |his.calls| ==> his.calls[k].candidate == i
    requires |his.traces| <= 1 && (his.traces != [] ==> Tells(his.traces[0], candidates[i], LastOf(his.calls, i)))
    ensures Told(Joined(j, his).traces, Joined(j, his).calls, candidates)
    ensures LastOf(Joined(j, his).calls, i) == LastOf(his.calls, i)
  {
    forall k: nat | k < i ensures LastOf(Joined(j, his).calls, k) == LastOf(j.calls, k) {
      LastOfJoined(j.calls, his.calls, k);
      LastOfOthers(his.calls, k);
    }
    LastOfJoined(j.calls, his.calls, i);
    LastOfOthers(j.calls, i);
  }

  lemma FirstReasonStays(j: Journal, his: Journal, candidates: seq<Entry>, i: nat, limits: Limits)
    requires SoFar(None, j, candidates, i, limits)
    ensures i > 0 ==> FirstReason(Joined(j, his)) == FirstReason(j)
    ensures i == 0 ==> FirstReason(Joined(j, his)) == FirstReason(his)
  {
    if i > 0 {
      assert Tells(j.traces[0], candidates[0], LastOf(j.calls, 0));
    }
  }

  /** Candidates are passed over for transient failures only. */
  lemma AllTransient(j: Journal, candidates: seq<Entry>, visited: nat, limits: Limits)
    requires PassedOver(j, candidates, visited, limits)
    ensures forall k :: 0 <= k < |j.calls| ==> Transient(j.calls[k])
  {
    if j.calls != [] {
      var last := j.calls[|j.calls| - 1];
      assert Tells(j.traces[last.candidate], candidates[last.candidate], LastOf(j.calls, last.candidate));
      assert GivenUp(j.traces[last.candidate], limits);
    }
  }

  lemma VisitJoins(j: Journal, his: Journal, candidates: seq<Entry>, i: nat, limits: Limits)
    requires PassedOver(j, candidates, i, limits) && i < |candidates|
    requires Bounded(his, i, candidates[i], limits)
    requires |his.traces| <= 1 && (his.traces != [] ==> Tells(his.traces[0], candidates[i], LastOf(his.calls, i)))
    ensures Visited(Joined(j, his), candidates, i + 1, limits)
    ensures LastOf(Joined(j, his).calls, i) == LastOf(his.calls, i)
  {
    AllTransient(j, candidates, i, limits);
    JoinedCalls(j, his, candidates, i, limits);
    JoinedPersists(j.calls, his.calls, i, limits.retries);
    JoinedWithin(j, his, i, limits);
    JoinedChecked(j, his, candidates, i, limits);
    JoinedTells(j, his, candidates, i, limits);
  }

  lemma VisitPasses(j: Journal, candidates: seq<Entry>, i: nat, more: bool, limits: Limits)
    requires Visited(j, candidates, i + 1, limits) && |j.traces| == i + 1 && more == (i + 1 < |candidates|)
    requires Ends(None, j.traces[i], limits, more)
    ensures PassedOver(j, candidates, i + 1, limits)
  {
  }

  lemma VisitEnds(result: Result, last: Trace, first: Cause, entry: Entry, call: Option<Call>, more: bool, limits: Limits)
    requires Ends(Some(result), last, limits, more) && Tells(last, entry, call)
    requires call.None? ==> ShortCircuited(last) || limits.tries == 0
    requires call.Some? ==> limits.tries > 0
    ensures ClosedBy(result, first, last, !more, limits)
  {
  }

  lemma VisitAdvances(verdict: Option<Result>, j: Journal, his: Journal, candidates: seq<Entry>, i: nat, limits: Limits)
    requires SoFar(None, j, candidates, i, limits) && i < |candidates|
    requires IsVisit(verdict, his, i, candidates[i], i + 1 < |candidates|, limits)
    ensures SoFar(verdict, Joined(j, his), candidates, i + 1, limits)
  {
    var more := i + 1 < |candidates|;
    VisitJoins(j, his, candidates, i, limits);
    match verdict {
      case None => VisitPasses(Joined(j, his), candidates, i, more, limits);
      case Some(Unknown) =>
      case Some(result) =>
        LastOfOwn(his.calls, i);
        VisitEnds(result, his.traces[0], FirstReason(Joined(j, his)), candidates[i], LastOf(his.calls, i), more, limits);
    }
  }

  lemma NothingYet(candidates: seq<Entry>, limits: Limits, start: Mark)
    requires candidates != []
    ensures SoFar(None, Journal([], [], [], []), candidates, 0, limits)
    ensures Leads(Journal([], [], [], []), start, start)
  {
  }

  lemma AllPassedOver(j: Journal, candidates: seq<Entry>, limits: Limits)
    requires SoFar(None, j, candidates, |candidates|, limits) && candidates != []
    ensures SoFar(Some(Raised(FirstReason(j))), j, candidates, |candidates|, limits)
  {
    assert Tells(j.traces[0], candidates[0], LastOf(j.calls, 0));
  }

  /** No candidate receives more than `most` calls, and none does when that is not positive. */
  ghost predicate AtMostEach(calls: seq<Call>, most: int) {
    if most <= 0 then calls == []
    else forall k, l :: 0 <= k < l < |calls| && most <= l - k ==> calls[k].candidate < calls[l].candidate
  }

  lemma CallsPerCandidate(result: Result, j: Journal, candidates: seq<Entry>, visited: nat, limits: Limits)
    requires Dispatched(result, j, candidates, visited, limits) && limits.tries == Tries(limits.resilient, limits.retries)
    ensures if limits.resilient then AtMostEach(j.calls, limits.retries + 1) else |j.calls| == 1
  {
    EarlierGivenUp(j, candidates, visited, limits, 0);
    if limits.resilient && limits.tries > 0 {
      forall k, l | 0 <= k < l < |j.calls| && limits.tries <= l - k ensures j.calls[k].candidate < j.calls[l].candidate {
        assert j.calls[k].candidate < j.calls[k + limits.tries].candidate;
      }
    }
    if !result.Unknown? {
      assert Tells(j.traces[0], candidates[0], LastOf(j.calls, 0));
    }
  }

  /** All that the account of a request says of its calls and of how it ends. */
  lemma Settled(
    result: Result, j: Journal, catalog: seq<Entry>, planned: Entry, fallBack: bool, visited: nat, limits: Limits,
    log: seq<Deed>, world: World)
    requires Dispatched(result, j, CandidatesOf(catalog, planned, fallBack), visited, limits)
    requires limits.tries == Tries(limits.resilient, limits.retries) && Happened(log, world)
    ensures Persists(j.calls, limits.retries)
    ensures if limits.resilient then AtMostEach(j.calls, limits.retries + 1) else |j.calls| == 1
    ensures ResolvesWithin(catalog, planned) ==> StaysWithin(j.calls, planned)
    ensures ResolvesToReal(catalog, planned) ==> NeverFakeFallback(j.calls)
    ensures limits.resilient && limits.retries < 0 && !ShortCircuits(j.checks[0]) ==> result == Raised(Nothing)
    ensures limits.resilient && limits.retries >= 1 && !ShortCircuits(j.checks[0]) && world.threshold > 1 ==>
              (CallsIn(log) == j.calls && IsTransient(world.upstream(0)) && world.upstream(1).Reply? ==>
                 result == Served(planned.id))
  {
    var candidates := CandidatesOf(catalog, planned, fallBack);
    CallsStayWithin(j.calls, catalog, planned, fallBack, visited, limits.tries);
    CallsPerCandidate(result, j, candidates, visited, limits);
    FirstCandidate(result, j, candidates, visited, limits, log, world);
  }

  lemma EarlierGivenUp(j: Journal, candidates: seq<Entry>, visited: nat, limits: Limits, i: nat)
    requires Visited(j, candidates, visited, limits)
    ensures i < visited - 1 ==> limits.resilient && (LastOf(j.calls, i).Some? ==> !LastOf(j.calls, i).value.outcome.Reply?)
  {
    if i < visited - 1 {
      assert GivenUp(j.traces[i], limits);
      assert Tells(j.traces[i], candidates[i], LastOf(j.calls, i));
    }
  }

  /**
   * A transient failure of a resilient request is followed by another call to the same candidate, as long as that
   * candidate received no more than `retries` calls and the breaker does not refuse it; and a reply ends the request.
   */
  lemma TriedAgain(result: Result, j: Journal, candidates: seq<Entry>, visited: nat, limits: Limits, k: nat)
    requires Dispatched(result, j, candidates, visited, limits)
    requires limits.resilient && k < |j.calls| && Transient(j.calls[k])
    requires j.calls[k].ask.Some? ==> j.calls[k].ask.value.again
    requires k < limits.retries || (limits.retries >= 0 && j.calls[k - limits.retries].candidate != j.calls[k].candidate)
    ensures k + 1 < |j.calls| && j.calls[k + 1].candidate == j.calls[k].candidate
    ensures j.calls[k + 1].outcome.Reply? ==> |j.calls| == k + 2 && result == Served(j.calls[k].entry.id)
  {
    assert PersistsAt(j.calls, k, limits.retries);
    if j.calls[k + 1].outcome.Reply? {
      RepliedIsServed(result, j, candidates, visited, limits, k + 1);
    }
  }

  lemma RepliedIsServed(result: Result, j: Journal, candidates: seq<Entry>, visited: nat, limits: Limits, k: nat)
    requires Dispatched(result, j, candidates, visited, limits) && k < |j.calls| && j.calls[k].outcome.Reply?
    ensures k == |j.calls| - 1 && result == Served(j.calls[k].entry.id)
  {
    assert k < |j.calls| - 1 ==> Transient(j.calls[k]);
    var i := j.calls[k].candidate;
    assert LastOf(j.calls, i) == Some(j.calls[k]);
    EarlierGivenUp(j, candidates, visited, limits, i);
    if i < |j.traces| {
      assert Tells(j.traces[i], candidates[i], LastOf(j.calls, i));
    }
  }

  lemma NullWithoutTries(result: Result, j: Journal, candidates: seq<Entry>, visited: nat, limits: Limits)
    requires Dispatched(result, j, candidates, visited, limits) && limits.tries == 0 && limits.resilient
    ensures !ShortCircuits(j.checks[0]) ==> result == Raised(Nothing)
  {
    if !ShortCircuits(j.checks[0]) {
      assert j.calls == [];
      assert Tells(j.traces[0], candidates[0], LastOf(j.calls, 0));
      assert !GivenUp(j.traces[0], limits);
    }
  }

  /** The first candidate passed its check, so the first call is made to it. */
  lemma FirstIsCalled(result: Result, j: Journal, candidates: seq<Entry>, visited: nat, limits: Limits)
    requires Dispatched(result, j, candidates, visited, limits) && limits.tries > 0 && limits.resilient
    requires !ShortCircuits(j.checks[0])
    ensures j.calls != [] && j.calls[0].candidate == 0 && j.calls[0].entry == candidates[0]
  {
    if j.traces != [] {
      assert Tells(j.traces[0], candidates[0], LastOf(j.calls, 0));
      if visited > 1 {
        assert GivenUp(j.traces[0], limits);
      }
    }
    LastIsThere(j.calls, 0);
  }

  lemma {:induction false} LastIsThere(calls: seq<Call>, i: nat)
    ensures LastOf(calls, i).Some? ==> exists k :: 0 <= k < |calls| && calls[k].candidate == i
  {
    if calls != [] && calls[|calls| - 1].candidate != i {
      LastIsThere(calls[..|calls| - 1], i);
    }
  }

  lemma {:induction false} CallOutcome(log: seq<Deed>, world: World, n: nat)
    requires Happened(log, world) && n < |CallsIn(log)|
    ensures CallsIn(log)[n].outcome == world.upstream(n)
  {
    var front := log[..|log| - 1];
    if n < |CallsIn(front)| {
      CallOutcome(front, world, n);
    } else {
      assert Follows(log[|log| - 1], front, world);
    }
  }

  lemma {:induction false} NoFailuresBeforeCalls(log: seq<Deed>, key: string)
    requires CallsIn(log) == []
    ensures FailuresInARow(ReportsOf(log), key) == 0
  {
    if log != [] {
      NoFailuresBeforeCalls(log[..|log| - 1], key);
      var last := log[|log| - 1];
      assert (ReportsOf(log[..|log| - 1]) + [Asked(last.check.provider)])[..|ReportsOf(log)| - 1]
          == ReportsOf(log[..|log| - 1]);
    }
  }

  /** With a threshold above one, the first failure of all never closes the way to a second call. */
  lemma {:induction false} FirstMayBeRepeated(log: seq<Deed>, world: World)
    requires Happened(log, world) && CallsIn(log) != [] && world.threshold > 1
    ensures CallsIn(log)[0].ask.Some? ==> CallsIn(log)[0].ask.value.again
  {
    var front, last := log[..|log| - 1], log[|log| - 1];
    if CallsIn(front) != [] {
      FirstMayBeRepeated(front, world);
    } else if last.call.ask.Some? {
      NoFailuresBeforeCalls(front, last.call.entry.provider);
      FailureCounts(world.threshold, ReportsOf(front), last.call.entry.provider, last.call.reports[0].at);
    }
  }

  /** What the check of the first candidate already settles, for a gateway that begins with this request in the second case. */
  lemma FirstCandidate(
    result: Result, j: Journal, candidates: seq<Entry>, visited: nat, limits: Limits, log: seq<Deed>, world: World)
    requires Dispatched(result, j, candidates, visited, limits) && limits.tries == Tries(limits.resilient, limits.retries)
    requires Happened(log, world)
    ensures limits.resilient && !ShortCircuits(j.checks[0]) && limits.retries < 0 ==> result == Raised(Nothing)
    ensures limits.resilient && !ShortCircuits(j.checks[0]) && limits.retries >= 1 && world.threshold > 1 ==>
              (CallsIn(log) == j.calls && IsTransient(world.upstream(0)) && world.upstream(1).Reply? ==>
                 result == Served(candidates[0].id))
  {
    if limits.resilient && limits.retries < 0 {
      NullWithoutTries(result, j, candidates, visited, limits);
    } else if limits.resilient && !ShortCircuits(j.checks[0]) && limits.retries >= 1 && world.threshold > 1 {
      if CallsIn(log) == j.calls {
        ServedBySecond(result, j, candidates, visited, limits, log, world);
      }
    }
  }

  /** A fresh gateway whose first call fails transiently and whose second is answered serves the request. */
  lemma ServedBySecond(
    result: Result, j: Journal, candidates: seq<Entry>, visited: nat, limits: Limits, log: seq<Deed>, world: World)
    requires Dispatched(result, j, candidates, visited, limits) && limits.resilient && !ShortCircuits(j.checks[0])
    requires limits.retries >= 1 && limits.tries > 0 && world.threshold > 1
    requires Happened(log, world) && CallsIn(log) == j.calls
    ensures IsTransient(world.upstream(0)) && world.upstream(1).Reply? ==> result == Served(candidates[0].id)
  {
    FirstIsCalled(result, j, candidates, visited, limits);
    CallOutcome(log, world, 0);
    FirstMayBeRepeated(log, world);
    if Transient(j.calls[0]) {
      TriedAgain(result, j, candidates, visited, limits, 0);
      CallOutcome(log, world, 1);
    }
  }

  /** Every call goes to an entry of the planned residency class. */
  ghost predicate StaysWithin(calls: seq<Call>, planned: Entry) {
    forall k :: 0 <= k < |calls| ==> calls[k].entry.residencyClass == planned.residencyClass
  }

  /** No call to a fallback goes to a fake entry. */
  ghost predicate NeverFakeFallback(calls: seq<Call>) {
    forall k :: 0 <= k < |calls| && calls[k].candidate > 0 ==> calls[k].entry.endpoint != "fake"
  }

  lemma CallsStayWithin(calls: seq<Call>, catalog: seq<Entry>, planned: Entry, fallBack: bool, visited: nat, tries: nat)
    requires CallsOf(calls, CandidatesOf(catalog, planned, fallBack), visited, tries)
    ensures ResolvesWithin(catalog, planned) ==> StaysWithin(calls, planned)
    ensures ResolvesToReal(catalog, planned) ==> NeverFakeFallback(calls)
  {
    FallbacksAllIff(catalog, planned, (e: Entry) => e.residencyClass == planned.residencyClass);
    FallbacksAllIff(catalog, planned, (e: Entry) => e.endpoint != "fake");
  }
}
