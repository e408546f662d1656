/** Runs of refreshes on the platform path, over arbitrary discoveries, clocks and fence outcomes. */
module RefreshRuns {
  import opened Common
  import opened Domain
  import opened InventoryTables
  import opened LedgerRuns
  import opened AliasTimeline
  import opened IdentityReconciler
  import opened RefreshPlan
  import opened StickyIdentities

  // ----- What one batch of decisions with distinct keys does to the histories -----

  ghost predicate DistinctKeys(decisions: seq<AliasDecision>) {
    forall k, l :: 0 <= k < l < |decisions| ==> AliasKey(decisions[k]) != AliasKey(decisions[l])
  }

  ghost function Entered(decision: AliasDecision, actor: Actor): AliasDecision {
    Reviewed(decision, actor).(supersededAt := None)
  }

  lemma WriteTimeline(rows: seq<AliasRow>, decision: AliasDecision, actor: Actor, key: OfferKey)
    ensures Timeline(Written(rows, decision, actor), key)
         == if AliasKey(decision) == key then Closed(Timeline(rows, key), decision.decidedAt) + [Entered(decision, actor)]
            else Timeline(rows, key)
  {
    var row := AliasRow(Entered(decision, actor), actor.orgId);
    TimelineOfSuperseded(rows, AliasKey(decision), decision.decidedAt, key);
    TimelineOfAppend(Superseded(rows, AliasKey(decision), decision.decidedAt), row, key);
    assert Timeline(rows, key) + [] == Timeline(rows, key);
  }

  lemma {:induction false} UndecidedKeepsTimeline(
    known: set<IdentityId>, rows: seq<AliasRow>, decisions: seq<AliasDecision>, actor: Actor, key: OfferKey)
    requires AfterWrites(known, rows, decisions, actor).Some? && !Decides(decisions, key)
    ensures Timeline(AfterWrites(known, rows, decisions, actor).value, key) == Timeline(rows, key)
    decreases |decisions|
  {
    if decisions != [] {
      WriteTimeline(rows, decisions[0], actor, key);
      assert forall k :: 0 <= k < |decisions[1..]| ==> decisions[1..][k] == decisions[k + 1];
      UndecidedKeepsTimeline(known, Written(rows, decisions[0], actor), decisions[1..], actor, key);
    }
  }

  lemma {:induction false} DecidedExtendsTimeline(
    known: set<IdentityId>, rows: seq<AliasRow>, decisions: seq<AliasDecision>, actor: Actor, k: nat)
    requires AfterWrites(known, rows, decisions, actor).Some? && DistinctKeys(decisions) && k < |decisions|
    ensures var key := AliasKey(decisions[k]);
            Timeline(AfterWrites(known, rows, decisions, actor).value, key)
            == Closed(Timeline(rows, key), decisions[k].decidedAt) + [Entered(decisions[k], actor)]
    decreases |decisions|
  {
    var key, rest := AliasKey(decisions[k]), decisions[1..];
    assert forall l :: 0 <= l < |rest| ==> rest[l] == decisions[l + 1];
    WriteTimeline(rows, decisions[0], actor, key);
    if k == 0 {
      assert !Decides(rest, key);
      UndecidedKeepsTimeline(known, Written(rows, decisions[0], actor), rest, actor, key);
    } else {
      assert rest[k - 1] == decisions[k];
      DecidedExtendsTimeline(known, Written(rows, decisions[0], actor), rest, actor, k - 1);
    }
  }

  ghost predicate NewAlias(rows: seq<AliasRow>, id: AliasId) {
    forall i :: 0 <= i < |rows| ==> rows[i].decision.aliasId != id
  }

  /** Every check of `_write_alias_decisions`, read against the table as the batch found it. */
  ghost predicate Writable(known: set<IdentityId>, rows: seq<AliasRow>, decision: AliasDecision) {
    decision.identityId in known && NewAlias(rows, decision.aliasId)
    && (CurrentDecision(rows, AliasKey(decision)).Some? ==>
          CurrentDecision(rows, AliasKey(decision)).value < decision.decidedAt)
  }

  lemma WriteKeepsWritable(
    known: set<IdentityId>, rows: seq<AliasRow>, first: AliasDecision, other: AliasDecision, actor: Actor)
    requires Writable(known, rows, other) && AliasKey(first) != AliasKey(other) && first.aliasId != other.aliasId
    ensures Writable(known, Written(rows, first, actor), other)
  {
    var key, after := AliasKey(other), Written(rows, first, actor);
    WriteTimeline(rows, first, actor, key);
    CurrentIsFirstOpen(rows, key);
    CurrentIsFirstOpen(after, key);
    forall i | 0 <= i < |after| ensures after[i].decision.aliasId != other.aliasId {
      assert i < |rows| ==> after[i].decision.aliasId == rows[i].decision.aliasId;
    }
  }

  lemma {:induction false} WritableBatchIsWritten(
    known: set<IdentityId>, rows: seq<AliasRow>, decisions: seq<AliasDecision>, actor: Actor)
    requires DistinctKeys(decisions)
    requires forall k, l :: 0 <= k < l < |decisions| ==> decisions[k].aliasId != decisions[l].aliasId
    requires forall k :: 0 <= k < |decisions| ==> Writable(known, rows, decisions[k])
    ensures AfterWrites(known, rows, decisions, actor).Some?
    decreases |decisions|
  {
    if decisions != [] {
      var rest := decisions[1..];
      assert Writable(known, rows, decisions[0]);
      forall k | 0 <= k < |rest| ensures Writable(known, Written(rows, decisions[0], actor), rest[k]) {
        assert rest[k] == decisions[k + 1];
        WriteKeepsWritable(known, rows, decisions[0], decisions[k + 1], actor);
      }
      WritableBatchIsWritten(known, Written(rows, decisions[0], actor), rest, actor);
    }
  }

  lemma {:induction false} BatchNames(
    known: set<IdentityId>, rows: seq<AliasRow>, decisions: seq<AliasDecision>, actor: Actor, i: nat)
    requires AfterWrites(known, rows, decisions, actor).Some?
    requires i < |AfterWrites(known, rows, decisions, actor).value|
    ensures var id := AfterWrites(known, rows, decisions, actor).value[i].decision.aliasId;
            if i < |rows| then id == rows[i].decision.aliasId
            else i - |rows| < |decisions| && id == decisions[i - |rows|].aliasId
    decreases |decisions|
  {
    if decisions != [] {
      BatchNames(known, Written(rows, decisions[0], actor), decisions[1..], actor, i);
    }
  }

  // ----- What a refresh decides -----

  lemma {:induction false} DecisionsAreOffers(
    offers: seq<Offer>, snapshotId: string, outcomes: Outcomes, latest: Latest, at: real)
    requires CoversOffers(outcomes, offers)
    ensures var decisions := DecisionsFor(offers, snapshotId, outcomes, latest, at);
            DistinctKeys(decisions)
            && forall k :: 0 <= k < |decisions| ==>
                 exists i :: 0 <= i < |offers| && decisions[k] == DecisionFor(offers[i], snapshotId, outcomes, latest, at)
  {
    if offers != [] {
      var n := |offers| - 1;
      DecisionsAreOffers(offers[..n], snapshotId, outcomes, latest, at);
      var before, decisions := DecisionsFor(offers[..n], snapshotId, outcomes, latest, at),
                               DecisionsFor(offers, snapshotId, outcomes, latest, at);
      forall k | 0 <= k < |decisions|
        ensures exists i :: 0 <= i < |offers| && decisions[k] == DecisionFor(offers[i], snapshotId, outcomes, latest, at)
      {
        if k < |before| {
          var i :| 0 <= i < n && before[k] == DecisionFor(offers[..n][i], snapshotId, outcomes, latest, at);
          assert offers[i] == offers[..n][i];
        } else {
          assert decisions[k] == DecisionFor(offers[n], snapshotId, outcomes, latest, at);
        }
      }
    }
  }

  /** The offer a decision is about, and what the decision takes from it and from the outcomes. */
  lemma DecisionSource(s: Session, n: nat, k: nat) returns (i: nat)
    requires WellSized(s) && n < |s.requests| && k < |SessionDecisions(s, n)|
    ensures DistinctKeys(SessionDecisions(s, n))
    ensures i < |SessionSnapshot(s, n).offers|
    ensures SessionDecisions(s, n)[k]
         == DecisionFor(SessionSnapshot(s, n).offers[i], s.snapshotIds[n], SessionOutcomes(s), s.latest, s.stamp.completedAt)
  {
    var offers := SessionSnapshot(s, n).offers;
    DecisionsAreOffers(offers, s.snapshotIds[n], SessionOutcomes(s), s.latest, s.stamp.completedAt);
    i :| 0 <= i < |offers| && SessionDecisions(s, n)[k]
           == DecisionFor(offers[i], s.snapshotIds[n], SessionOutcomes(s), s.latest, s.stamp.completedAt);
  }

  lemma OfferIdentity(s: Session, n: nat, i: nat)
    requires WellSized(s) && n < |s.requests| && i < |SessionSnapshot(s, n).offers|
    ensures var offer := SessionSnapshot(s, n).offers[i];
            OfferKeyOf(offer) in SessionOutcomes(s)
            && offer.identityId == SessionOutcomes(s)[OfferKeyOf(offer)].identityId
  {
  }

  lemma OutcomeIsAnswer(s: Session, key: OfferKey) returns (i: nat)
    requires key in SessionOutcomes(s)
    ensures i < |Items(s)| && Items(s)[i].key == key && SessionOutcomes(s)[key] == Answers(s)[i]
    ensures forall j :: i < j < |Items(s)| ==> Items(s)[j].key != key
  {
    i :| AnswersFor(Items(s), Answers(s), key, SessionOutcomes(s)[key], i);
  }

  // ----- One refresh on the platform path -----

  ghost function Providers(s: Session): set<string> {
    set k | 0 <= k < |s.requests| :: s.requests[k].provider
  }

  /** The platform passes the active aliases of the requested providers, one request per provider. */
  ghost predicate OnPlatformPath(t: Tables, s: Session) {
    WellSized(s)
    && DistinctProviders(s.requests)
    && s.aliases == ActiveAliases(OpenAliases(t.aliases, Providers(s)))
    && s.latest == LatestGiven(OpenAliases(t.aliases, Providers(s)))
  }

  lemma CommittedOfferIsOwn(s: Session, n: nat, i: nat)
    requires WellSized(s) && n < |s.requests| && ValidInventory(SessionSnapshot(s, n))
    requires i < |SessionSnapshot(s, n).offers|
    ensures SessionSnapshot(s, n).offers[i].provider == s.requests[n].provider
  {
  }

  lemma DecidedKeyIsOwn(s: Session, n: nat, key: OfferKey) returns (k: nat)
    requires WellSized(s) && n < |s.requests| && ValidInventory(SessionSnapshot(s, n))
    requires Decides(SessionDecisions(s, n), key)
    ensures k < |SessionDecisions(s, n)| && AliasKey(SessionDecisions(s, n)[k]) == key
    ensures key.provider == s.requests[n].provider && key in SessionOutcomes(s)
    ensures SessionDecisions(s, n)[k].identityId == SessionOutcomes(s)[key].identityId
    ensures SessionDecisions(s, n)[k].decidedAt == DecisionTime(s.latest, key, s.stamp.completedAt)
    ensures SessionDecisions(s, n)[k].aliasId == Recorded(s.snapshotIds[n], key)
    ensures DistinctKeys(SessionDecisions(s, n))
  {
    k :| 0 <= k < |SessionDecisions(s, n)| && AliasKey(SessionDecisions(s, n)[k]) == key;
    var i := DecisionSource(s, n, k);
    CommittedOfferIsOwn(s, n, i);
    OfferIdentity(s, n, i);
  }

  /** One more entry, naming `id`; the earlier entries keep their identities. */
  ghost predicate Extends(before: seq<AliasDecision>, after: seq<AliasDecision>, id: IdentityId) {
    |after| == |before| + 1 && after[|before|].identityId == id
    && forall k :: 0 <= k < |before| ==> after[k].identityId == before[k].identityId
  }

  lemma CommitTimeline(
    t: Tables, snapshot: Snapshot, decisions: seq<AliasDecision>, fence: Option<Fence>, key: OfferKey)
    requires AfterCommit(t, snapshot, decisions, INVENTORY_ACTOR, fence).Some?
    ensures !Decides(decisions, key) ==>
              Timeline(AfterCommit(t, snapshot, decisions, INVENTORY_ACTOR, fence).value.aliases, key) == Timeline(t.aliases, key)
    ensures forall k :: 0 <= k < |decisions| && AliasKey(decisions[k]) == key && DistinctKeys(decisions) ==>
              Extends(Timeline(t.aliases, key),
                      Timeline(AfterCommit(t, snapshot, decisions, INVENTORY_ACTOR, fence).value.aliases, key),
                      decisions[k].identityId)
  {
    if !Decides(decisions, key) {
      UndecidedKeepsTimeline(t.identities.Keys, t.aliases, decisions, INVENTORY_ACTOR, key);
    } else if DistinctKeys(decisions) {
      forall k | 0 <= k < |decisions| && AliasKey(decisions[k]) == key
        ensures Extends(Timeline(t.aliases, key),
                        Timeline(AfterWrites(t.identities.Keys, t.aliases, decisions, INVENTORY_ACTOR).value, key),
                        decisions[k].identityId)
      {
        DecidedExtendsTimeline(t.identities.Keys, t.aliases, decisions, INVENTORY_ACTOR, k);
      }
    }
  }

  lemma CommitEventEffect(t: Tables, snapshot: Snapshot, decisions: seq<AliasDecision>, fence: Option<Fence>)
    ensures var committed := AfterCommit(t, snapshot, decisions, INVENTORY_ACTOR, fence);
            var event := Commit(snapshot, decisions, INVENTORY_ACTOR, fence);
            After(t, event) == (if committed.Some? then committed.value else t)
            && (TakesEffect(t, event) <==> committed.Some?)
  {
  }

  lemma CommitStep(t: Tables, s: Session, n: nat)
    requires WellSized(s) && n < |s.requests|
    ensures var found := t.(ledger := s.ledgers[n + 1]);
            var committed := AfterCommit(found, SessionSnapshot(s, n), SessionDecisions(s, n), INVENTORY_ACTOR, s.fences[n]);
            Executed(t, s, n + 1) == (if committed.Some? then committed.value else found)
            && (TransactionTook(t, s, n + 1) <==> committed.Some?)
  {
    var found := t.(ledger := s.ledgers[n + 1]);
    CommitEventEffect(found, SessionSnapshot(s, n), SessionDecisions(s, n), s.fences[n]);
  }

  lemma CommittedIsValid(t: Tables, snapshot: Snapshot, decisions: seq<AliasDecision>, actor: Actor, fence: Option<Fence>)
    requires AfterCommit(t, snapshot, decisions, actor, fence).Some?
    ensures ValidInventory(snapshot)
  {
  }

  /** The effect of committing request `n` on the history of one key: none, or one more entry. */
  ghost predicate CommitsTo(
    provider: string, outcomes: Outcomes, key: OfferKey, before: seq<AliasDecision>, after: seq<AliasDecision>)
  {
    after == before
    || (key.provider == provider && key in outcomes && Extends(before, after, outcomes[key].identityId))
  }

  lemma CommitEffect(t: Tables, s: Session, n: nat, key: OfferKey)
    requires WellSized(s) && n < |s.requests|
    ensures CommitsTo(s.requests[n].provider, SessionOutcomes(s), key,
                      Timeline(t.aliases, key), Timeline(Executed(t, s, n + 1).aliases, key))
  {
    CommitStep(t, s, n);
    var found, snapshot, decisions := t.(ledger := s.ledgers[n + 1]), SessionSnapshot(s, n), SessionDecisions(s, n);
    if AfterCommit(found, snapshot, decisions, INVENTORY_ACTOR, s.fences[n]).Some? {
      CommittedIsValid(found, snapshot, decisions, INVENTORY_ACTOR, s.fences[n]);
      CommitTimeline(found, snapshot, decisions, s.fences[n], key);
      if Decides(decisions, key) {
        var k := DecidedKeyIsOwn(s, n, key);
      }
    }
  }

  lemma EnsureEffect(t: Tables, s: Session)
    requires WellSized(s)
    ensures Executed(t, s, 0).aliases == t.aliases && Executed(t, s, 0).snapshots == t.snapshots
    ensures TransactionTook(t, s, 0) <==> Ensured(t.identities, s.created).Some?
    ensures Executed(t, s, 0).identities
         == if TransactionTook(t, s, 0) then Ensured(t.identities, s.created).value else t.identities
  {
  }

  /** A key with a history is given the identity its history ends in. */
  lemma KnownKeyKeepsIdentity(t: Tables, s: Session, key: OfferKey)
    requires SoundHistory(t) && OnPlatformPath(t, s)
    requires key.provider in Providers(s) && key in SessionOutcomes(s) && Timeline(t.aliases, key) != []
    ensures SessionOutcomes(s)[key].identityId == LastOf(Timeline(t.aliases, key)).identityId
  {
    AliasesAreLastDecisions(t.aliases, Providers(s), key);
    var i := OutcomeIsAnswer(s, key);
  }

  /** Later entries of a history all name the identity the earlier history ended in. */
  ghost predicate Sticks(before: seq<AliasDecision>, after: seq<AliasDecision>) {
    |before| <= |after| && (forall k :: 0 <= k < |before| ==> after[k].identityId == before[k].identityId)
    && (before != [] ==> forall k :: |before| <= k < |after| ==> after[k].identityId == LastOf(before).identityId)
    && (before == [] ==> |after| <= 1)
  }

  /** The history of one key along the first commits of a refresh. */
  ghost predicate Along(requests: seq<Request>, outcomes: Outcomes, key: OfferKey, h: seq<seq<AliasDecision>>) {
    0 < |h| <= |requests| + 1
    && forall k :: 0 <= k < |h| - 1 ==> CommitsTo(requests[k].provider, outcomes, key, h[k], h[k + 1])
  }

  lemma HistoryAlong(s: Session, trace: seq<Tables>, key: OfferKey) returns (h: seq<seq<AliasDecision>>)
    requires Executes(s, trace) && |trace| > 1
    ensures Along(s.requests, SessionOutcomes(s), key, h) && |h| == |trace| - 1
    ensures h[0] == Timeline(trace[0].aliases, key)
    ensures forall n :: 0 <= n < |h| ==> h[n] == Timeline(trace[n + 1].aliases, key)
  {
    h := seq(|trace| - 1, n requires 0 <= n < |trace| - 1 => Timeline(trace[n + 1].aliases, key));
    StepOf(s, trace, 0);
    EnsureEffect(trace[0], s);
    forall k | 0 <= k < |h| - 1 ensures CommitsTo(s.requests[k].provider, SessionOutcomes(s), key, h[k], h[k + 1]) {
      StepOf(s, trace, k + 1);
      CommitEffect(trace[k + 1], s, k, key);
    }
  }

  ghost predicate DistinctProviders(requests: seq<Request>) {
    forall k, l :: 0 <= k < l < |requests| ==> requests[k].provider != requests[l].provider
  }

  /** Until its own provider's commit comes, a key's history is what the refresh found. */
  lemma {:induction false} HistoryWaitsItsTurn(
    requests: seq<Request>, outcomes: Outcomes, key: OfferKey, h: seq<seq<AliasDecision>>, n: nat)
    requires Along(requests, outcomes, key, h) && n < |h|
    requires forall k :: 0 <= k < n ==> requests[k].provider != key.provider
    ensures h[n] == h[0]
  {
    if n > 0 {
      HistoryWaitsItsTurn(requests, outcomes, key, h, n - 1);
      assert CommitsTo(requests[n - 1].provider, outcomes, key, h[n - 1], h[n - 1 + 1]);
    }
  }

  lemma {:induction false} StepsStick(
    requests: seq<Request>, outcomes: Outcomes, key: OfferKey, h: seq<seq<AliasDecision>>, n: nat)
    requires Along(requests, outcomes, key, h) && n < |h| && DistinctProviders(requests)
    requires h[0] != [] && key in outcomes && (exists k :: 0 <= k < |requests| && requests[k].provider == key.provider) ==>
               outcomes[key].identityId == LastOf(h[0]).identityId
    ensures Sticks(h[0], h[n])
  {
    if n > 0 {
      StepsStick(requests, outcomes, key, h, n - 1);
      assert CommitsTo(requests[n - 1].provider, outcomes, key, h[n - 1], h[n - 1 + 1]);
      if requests[n - 1].provider == key.provider {
        HistoryWaitsItsTurn(requests, outcomes, key, h, n - 1);
      }
    }
  }

  lemma RefreshSticks(s: Session, trace: seq<Tables>, n: nat, key: OfferKey)
    requires Executes(s, trace) && n < |trace| && SoundHistory(trace[0]) && OnPlatformPath(trace[0], s)
    ensures Sticks(Timeline(trace[0].aliases, key), Timeline(trace[n].aliases, key))
  {
    if n > 0 {
      var h := HistoryAlong(s, trace, key);
      if h[0] != [] && key.provider in Providers(s) && key in SessionOutcomes(s) {
        KnownKeyKeepsIdentity(trace[0], s, key);
      }
      StepsStick(s.requests, SessionOutcomes(s), key, h, n - 1);
    }
  }

  lemma ExecutionKeepsHistory(t: Tables, s: Session, n: nat)
    requires WellSized(s) && n <= |s.requests| && SoundHistory(t)
    ensures SoundHistory(Executed(t, s, n)) && t.identities.Keys <= Executed(t, s, n).identities.Keys
  {
    StepKeepsHistory(t.(ledger := s.ledgers[n]), SessionEvent(s, n));
  }

  lemma {:induction false} RefreshKeepsHistory(s: Session, trace: seq<Tables>, n: nat)
    requires Executes(s, trace) && n < |trace| && SoundHistory(trace[0])
    ensures SoundHistory(trace[n]) && trace[0].identities.Keys <= trace[n].identities.Keys
  {
    if n > 0 {
      RefreshKeepsHistory(s, trace, n - 1);
      ExecutionKeepsHistory(trace[n - 1], s, n - 1);
      StepOf(s, trace, n - 1);
    }
  }

  // ----- Runs of refreshes -----

  /** Refreshes one after the other, each cut short wherever it failed; the ledger may move at any time. */
  ghost predicate IsRun(states: seq<Tables>, sessions: seq<Session>, traces: seq<seq<Tables>>) {
    |states| == |sessions| + 1 && |traces| == |sessions| && SoundHistory(states[0])
    && forall i :: 0 <= i < |sessions| ==> RefreshesTo(states[i], sessions[i], traces[i], states[i + 1])
  }

  ghost predicate RefreshesTo(t: Tables, s: Session, trace: seq<Tables>, next: Tables) {
    OnPlatformPath(t, s) && Executes(s, trace) && trace[0].(ledger := map[]) == t.(ledger := map[])
    && next.(ledger := map[]) == trace[|trace| - 1].(ledger := map[])
  }

  lemma RunStep(states: seq<Tables>, sessions: seq<Session>, traces: seq<seq<Tables>>, i: nat, key: OfferKey)
    requires IsRun(states, sessions, traces) && i < |sessions| && SoundHistory(states[i])
    ensures SoundHistory(states[i + 1])
    ensures Sticks(Timeline(states[i].aliases, key), Timeline(states[i + 1].aliases, key))
  {
    assert RefreshesTo(states[i], sessions[i], traces[i], states[i + 1]);
    SameButLedger(traces[i][0], states[i]);
    RefreshKeepsHistory(sessions[i], traces[i], |traces[i]| - 1);
    RefreshSticks(sessions[i], traces[i], |traces[i]| - 1, key);
    SameButLedger(states[i + 1], traces[i][|traces[i]| - 1]);
  }

  lemma SameButLedger(t: Tables, u: Tables)
    requires t.(ledger := map[]) == u.(ledger := map[])
    ensures t.aliases == u.aliases && t.identities == u.identities
  {
  }

  lemma {:induction false} RunIsSound(states: seq<Tables>, sessions: seq<Session>, traces: seq<seq<Tables>>, i: nat)
    requires IsRun(states, sessions, traces) && i < |states|
    ensures SoundHistory(states[i])
  {
    if i > 0 {
      RunIsSound(states, sessions, traces, i - 1);
      RunStep(states, sessions, traces, i - 1, OfferKey("", ""));
    }
  }

  lemma SticksOn(first: seq<AliasDecision>, middle: seq<AliasDecision>, last: seq<AliasDecision>)
    requires first != [] && Sticks(first, middle) && Sticks(middle, last)
    ensures Sticks(first, last)
    ensures last != [] && LastOf(last).identityId == LastOf(first).identityId
  {
  }

  /**
   * Sticky identities: once a provider's model id has a committed decision, every later decision about
   * it, over any further refreshes with any discoveries, names the same identity.
   */
  lemma {:induction false} IdentityIsSticky(
    states: seq<Tables>, sessions: seq<Session>, traces: seq<seq<Tables>>, i: nat, j: nat, key: OfferKey)
    requires IsRun(states, sessions, traces) && i <= j < |states|
    requires Timeline(states[i].aliases, key) != []
    ensures Timeline(states[j].aliases, key) != []
    ensures LastOf(Timeline(states[j].aliases, key)).identityId == LastOf(Timeline(states[i].aliases, key)).identityId
    ensures Sticks(Timeline(states[i].aliases, key), Timeline(states[j].aliases, key))
    decreases j
  {
    if i < j {
      IdentityIsSticky(states, sessions, traces, i, j - 1, key);
      RunIsSound(states, sessions, traces, j - 1);
      RunStep(states, sessions, traces, j - 1, key);
      SticksOn(Timeline(states[i].aliases, key), Timeline(states[j - 1].aliases, key), Timeline(states[j].aliases, key));
    }
  }

  ghost predicate OneIdentity(history: seq<AliasDecision>) {
    forall k, l :: 0 <= k < |history| && 0 <= l < |history| ==> history[k].identityId == history[l].identityId
  }

  lemma StickingKeepsOneIdentity(before: seq<AliasDecision>, after: seq<AliasDecision>)
    requires OneIdentity(before) && Sticks(before, after)
    ensures OneIdentity(after)
  {
  }

  /** Starting without history, each model id is only ever given one identity. */
  lemma {:induction false} OneIdentityForEver(
    states: seq<Tables>, sessions: seq<Session>, traces: seq<seq<Tables>>, j: nat, key: OfferKey)
    requires IsRun(states, sessions, traces) && j < |states| && Timeline(states[0].aliases, key) == []
    ensures OneIdentity(Timeline(states[j].aliases, key))
  {
    if j > 0 {
      OneIdentityForEver(states, sessions, traces, j - 1, key);
      RunIsSound(states, sessions, traces, j - 1);
      RunStep(states, sessions, traces, j - 1, key);
      StickingKeepsOneIdentity(Timeline(states[j - 1].aliases, key), Timeline(states[j].aliases, key));
    }
  }
}
