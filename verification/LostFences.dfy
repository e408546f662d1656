/**
 * What a lost fence leaves behind. A refresh stores the identities it creates before it commits anything, so
 * one that then loses its fence leaves an identity no decision names. A later refresh that mints the same
 * identity describes it with its own clock reading, and is refused.
 */
module LostFences {
  import opened Common
  import opened Domain
  import opened IdentifierComponents
  import opened InventoryTables
  import opened LedgerRuns
  import opened AliasTimeline
  import opened IdentityReconciler
  import opened RefreshPlan
  import opened StickyIdentities
  import opened RefreshRuns
  import opened RefreshCommits
  import opened SmallRefreshes

  /** Some offer of the key has nothing to be recognised by: no usable fingerprint and no partner. */
  ghost predicate Unrecognised(s: Session, key: OfferKey) {
    exists i :: IsUnrecognised(Items(s), key, i)
  }

  ghost predicate IsUnrecognised(items: seq<Item>, key: OfferKey, i: nat) {
    i < |items| && items[i].key == key && !Usable(items[i].fingerprint) && !HasPartner(Nodes(items), i)
  }

  ghost predicate Omits(s: Session, key: OfferKey) {
    forall i :: 0 <= i < |Items(s)| ==> Items(s)[i].key != key
  }

  function OwnIdentity(key: OfferKey): IdentityId {
    FromOffer(key.provider, key.upstreamModelId)
  }

  function Provisional(key: OfferKey, description: Description, at: real): ModelIdentity {
    ModelIdentity(OwnIdentity(key), description, true, at)
  }

  lemma UnrecognisedIsProvisional(items: seq<Item>, known: seq<Known>, aliases: Aliases, key: OfferKey, i: nat)
    requires IsUnrecognised(items, key, i) && key !in aliases
    ensures Assigned(items, known, aliases, i) == Assignment(OwnIdentity(key), PROVISIONAL, true)
  {
  }

  lemma NoHistoryNoAlias(t: Tables, s: Session, key: OfferKey)
    requires SoundHistory(t) && OnPlatformPath(t, s) && Timeline(t.aliases, key) == []
    ensures key !in s.aliases
  {
    var approved := OpenAliases(t.aliases, Providers(s));
    if key.provider in Providers(s) {
      AliasesAreLastDecisions(t.aliases, Providers(s), key);
    } else if key in s.aliases {
      var k := ActiveSource(approved, key);
      var i := OpenAliasesAreRows(t.aliases, Providers(s), k);
      assert false;
    }
  }

  /** An unrecognised offer whose key has no history has the key's own identity created. */
  lemma UnrecognisedCreates(t: Tables, s: Session, key: OfferKey)
    requires SoundHistory(t) && OnPlatformPath(t, s) && CreatesWhatItMints(s) && Unrecognised(s, key)
    requires Timeline(t.aliases, key) == []
    ensures CreatedAs(s.created, OwnIdentity(key))
  {
    NoHistoryNoAlias(t, s, key);
    var i: nat :| IsUnrecognised(Items(s), key, i);
    UnrecognisedIsProvisional(Items(s), s.known, s.aliases, key, i);
    assert Answers(s)[i].minted;
  }

  // ----- Identities stay as stored -----

  lemma ExecutionKeepsIdentity(t: Tables, s: Session, n: nat, id: IdentityId)
    requires WellSized(s) && n <= |s.requests| && id in t.identities
    ensures id in Executed(t, s, n).identities && Executed(t, s, n).identities[id] == t.identities[id]
  {
    if n == 0 {
      EnsureEffect(t, s);
      if TransactionTook(t, s, 0) {
        EnsuringOnlyAdds(t.identities, s.created);
      }
    } else {
      CommitStep(t, s, n - 1);
    }
  }

  lemma {:induction false} RefreshKeepsIdentity(s: Session, trace: seq<Tables>, n: nat, id: IdentityId)
    requires Executes(s, trace) && n < |trace| && id in trace[0].identities
    ensures id in trace[n].identities && trace[n].identities[id] == trace[0].identities[id]
  {
    if n > 0 {
      RefreshKeepsIdentity(s, trace, n - 1, id);
      StepOf(s, trace, n - 1);
      ExecutionKeepsIdentity(trace[n - 1], s, n - 1, id);
    }
  }

  // ----- The refresh that loses its fence -----

  /** The identities went in, and every commit that was tried found its lease gone. */
  ghost predicate LosesItsFence(s: Session, trace: seq<Tables>) {
    Executes(s, trace) && |trace| > 1 && TransactionTook(trace[0], s, 0)
    && forall n :: 1 <= n < |trace| - 1 ==> s.fences[n - 1].Some? && !FenceHolds(s.ledgers[n], s.fences[n - 1].value)
  }

  lemma {:induction false} NothingIsCommitted(s: Session, trace: seq<Tables>, n: nat)
    requires LosesItsFence(s, trace) && 1 <= n < |trace|
    ensures trace[n].aliases == trace[0].aliases && trace[n].identities == trace[1].identities
    decreases n
  {
    if n == 1 {
      StepOf(s, trace, 0);
      EnsureEffect(trace[0], s);
    } else {
      NothingIsCommitted(s, trace, n - 1);
      StepOf(s, trace, n - 1);
      CommitStep(trace[n - 1], s, n - 2);
    }
  }

  /** It leaves the key's own identity as it created it, and still no history. */
  lemma LostFenceLeavesIdentity(s: Session, trace: seq<Tables>, key: OfferKey) returns (k: nat)
    requires LosesItsFence(s, trace) && SoundHistory(trace[0]) && OnPlatformPath(trace[0], s)
    requires CreatesWhatItMints(s) && Unrecognised(s, key) && Timeline(trace[0].aliases, key) == []
    ensures k < |s.created| && Stuck(trace[|trace| - 1], key, s.created[k])
  {
    UnrecognisedCreates(trace[0], s, key);
    k :| 0 <= k < |s.created| && s.created[k].identityId == OwnIdentity(key);
    RecordStays(s, trace, k);
  }

  lemma RecordStays(s: Session, trace: seq<Tables>, k: nat)
    requires LosesItsFence(s, trace) && k < |s.created|
    ensures var end := trace[|trace| - 1];
            end.aliases == trace[0].aliases && s.created[k].identityId in end.identities
            && end.identities[s.created[k].identityId] == s.created[k]
  {
    NothingIsCommitted(s, trace, |trace| - 1);
    StepOf(s, trace, 0);
    EnsureEffect(trace[0], s);
    EnsuringOnlyAdds(trace[0].identities, s.created);
  }

  /** The identity is stored as `record`, and no decision was ever made about the key. */
  ghost predicate Stuck(t: Tables, key: OfferKey, record: ModelIdentity) {
    Timeline(t.aliases, key) == [] && OwnIdentity(key) in t.identities && t.identities[OwnIdentity(key)] == record
  }

  // ----- The refreshes after it -----

  /** A refresh stops at the first transaction that is refused. */
  ghost predicate StopsWhenRefused(s: Session, trace: seq<Tables>) {
    Executes(s, trace) && forall n :: 0 <= n < |trace| - 2 ==> TransactionTook(trace[n], s, n)
  }

  /** Another discovery of the key, still unrecognised, that describes its identity otherwise, as any other clock reading does. */
  ghost predicate TriesAgain(s: Session, key: OfferKey, record: ModelIdentity) {
    CreatesWhatItMints(s) && Unrecognised(s, key)
    && forall k :: 0 <= k < |s.created| && s.created[k].identityId == OwnIdentity(key) ==> s.created[k] != record
  }

  lemma {:induction false} OmittedKeepsTimeline(s: Session, trace: seq<Tables>, n: nat, key: OfferKey)
    requires Executes(s, trace) && n < |trace| && Omits(s, key)
    ensures Timeline(trace[n].aliases, key) == Timeline(trace[0].aliases, key)
  {
    if n > 0 {
      OmittedKeepsTimeline(s, trace, n - 1, key);
      StepOf(s, trace, n - 1);
      if key in SessionOutcomes(s) {
        var i := OutcomeIsAnswer(s, key);
        assert false;
      }
      if n == 1 {
        EnsureEffect(trace[0], s);
      } else {
        CommitEffect(trace[n - 1], s, n - 2, key);
      }
    }
  }

  lemma TryIsRefused(t: Tables, s: Session, key: OfferKey, record: ModelIdentity)
    requires SoundHistory(t) && OnPlatformPath(t, s) && Stuck(t, key, record) && TriesAgain(s, key, record)
    ensures !TransactionTook(t, s, 0)
  {
    UnrecognisedCreates(t, s, key);
    CreationRefusedIff(t, s);
  }

  lemma RefusedLeavesAll(s: Session, trace: seq<Tables>)
    requires StopsWhenRefused(s, trace) && !TransactionTook(trace[0], s, 0)
    ensures SameStores(trace[|trace| - 1], trace[0])
  {
    if |trace| >= 2 {
      StepOf(s, trace, 0);
      EnsureEffect(trace[0], s);
    }
  }

  /** Nothing but the ledger differs. */
  ghost predicate SameStores(t: Tables, u: Tables) {
    t.identities == u.identities && t.aliases == u.aliases && t.snapshots == u.snapshots
  }

  lemma RefreshStaysStuck(s: Session, trace: seq<Tables>, key: OfferKey, record: ModelIdentity)
    requires StopsWhenRefused(s, trace) && SoundHistory(trace[0]) && OnPlatformPath(trace[0], s)
    requires Stuck(trace[0], key, record) && (Omits(s, key) || TriesAgain(s, key, record))
    ensures Stuck(trace[|trace| - 1], key, record)
  {
    if Omits(s, key) {
      OmittedKeepsTimeline(s, trace, |trace| - 1, key);
      RefreshKeepsIdentity(s, trace, |trace| - 1, OwnIdentity(key));
    } else {
      TryIsRefused(trace[0], s, key, record);
      RefusedLeavesAll(s, trace);
    }
  }

  /** Any refreshes after the lost fence, in which the key stays unrecognised wherever it is discovered. */
  ghost predicate RunAfter(
    states: seq<Tables>, sessions: seq<Session>, traces: seq<seq<Tables>>, key: OfferKey, record: ModelIdentity)
  {
    IsRun(states, sessions, traces)
    && forall i :: 0 <= i < |sessions| ==>
         StopsWhenRefused(sessions[i], traces[i]) && (Omits(sessions[i], key) || TriesAgain(sessions[i], key, record))
  }

  lemma RunStepStaysStuck(t: Tables, s: Session, trace: seq<Tables>, next: Tables, key: OfferKey, record: ModelIdentity)
    requires RefreshesTo(t, s, trace, next) && SoundHistory(t) && StopsWhenRefused(s, trace)
    requires Stuck(t, key, record) && (Omits(s, key) || TriesAgain(s, key, record))
    ensures Stuck(next, key, record)
  {
    StuckDespiteLedger(t, trace[0], s, key, record);
    RefreshStaysStuck(s, trace, key, record);
    SameButLedger(next, trace[|trace| - 1]);
  }

  lemma {:induction false} StaysStuck(
    states: seq<Tables>, sessions: seq<Session>, traces: seq<seq<Tables>>, i: nat, key: OfferKey, record: ModelIdentity)
    requires RunAfter(states, sessions, traces, key, record) && i < |states| && Stuck(states[0], key, record)
    ensures Stuck(states[i], key, record)
  {
    if i > 0 {
      StaysStuck(states, sessions, traces, i - 1, key, record);
      RunIsSound(states, sessions, traces, i - 1);
      assert RefreshesTo(states[i - 1], sessions[i - 1], traces[i - 1], states[i - 1 + 1]);
      RunStepStaysStuck(states[i - 1], sessions[i - 1], traces[i - 1], states[i], key, record);
    }
  }

  lemma StuckDespiteLedger(t: Tables, u: Tables, s: Session, key: OfferKey, record: ModelIdentity)
    requires t.(ledger := map[]) == u.(ledger := map[]) && SoundHistory(t) && OnPlatformPath(t, s) && Stuck(t, key, record)
    ensures SoundHistory(u) && OnPlatformPath(u, s) && Stuck(u, key, record)
  {
    SameButLedger(t, u);
  }

  lemma TryLeavesAll(t: Tables, s: Session, trace: seq<Tables>, next: Tables, key: OfferKey, record: ModelIdentity)
    requires RefreshesTo(t, s, trace, next) && SoundHistory(t) && StopsWhenRefused(s, trace)
    requires Stuck(t, key, record) && TriesAgain(s, key, record)
    ensures !TransactionTook(trace[0], s, 0) && SameStores(next, t)
  {
    StuckDespiteLedger(t, trace[0], s, key, record);
    TryIsRefused(trace[0], s, key, record);
    RefusedLeavesAll(s, trace);
  }

  /**
   * A refresh that loses its fence after creating the identity of an unrecognised model blocks every later
   * refresh that discovers that model, whatever else it discovers, as long as the model stays unrecognised:
   * over any run each of them is refused at once and stores nothing at all, and the model never gets a decision.
   */
  lemma LostFenceBlocksLaterRefreshes(
    s: Session, trace: seq<Tables>, states: seq<Tables>, sessions: seq<Session>, traces: seq<seq<Tables>>, i: nat,
    key: OfferKey, k: nat)
    requires LosesItsFence(s, trace) && Timeline(trace[0].aliases, key) == []
    requires k < |s.created| && s.created[k].identityId == OwnIdentity(key)
    requires RunAfter(states, sessions, traces, key, s.created[k])
    requires states[0].(ledger := map[]) == trace[|trace| - 1].(ledger := map[])
    ensures i < |states| ==> Timeline(states[i].aliases, key) == []
    ensures i < |sessions| && Unrecognised(sessions[i], key) ==>
              !TransactionTook(traces[i][0], sessions[i], 0) && SameStores(states[i + 1], states[i])
  {
    RecordStays(s, trace, k);
    SameButLedger(states[0], trace[|trace| - 1]);
    if i < |states| {
      StaysStuck(states, sessions, traces, i, key, s.created[k]);
    }
    if i < |sessions| && Unrecognised(sessions[i], key) {
      RunIsSound(states, sessions, traces, i);
      assert RefreshesTo(states[i], sessions[i], traces[i], states[i + 1]);
      UnrecognisedIsNotOmitted(sessions[i], key);
      TryLeavesAll(states[i], sessions[i], traces[i], states[i + 1], key, s.created[k]);
    }
  }

  lemma UnrecognisedIsNotOmitted(s: Session, key: OfferKey)
    requires Unrecognised(s, key)
    ensures !Omits(s, key)
  {
  }

  // ----- Such a refresh and the next one exist -----

  function Sole(p: string, k: string, plain: Description, at: real, snapshotId: string, fence: Option<Fence>): Session {
    Small(p, [Listed(p, k, plain)], [], map[], at, snapshotId, fence, [Provisional(OfferKey(p, k), plain, at)])
  }

  lemma OneIsDescribed(items: seq<Item>, answers: seq<Assignment>, created: seq<ModelIdentity>, at: real)
    requires |items| == |answers| == 1 && answers[0] == Assignment(OwnIdentity(items[0].key), PROVISIONAL, true)
    requires created == [Provisional(items[0].key, items[0].description, at)]
    ensures CreatesOnce(items, answers, created)
  {
    assert created[0].identityId == answers[0].identityId;
    assert CreatedFrom(items, answers, created[0], created[0].identityId, 0);
  }

  lemma SoleIsUnrecognised(
    p: string, k: string, plain: Description, at: real, snapshotId: string, fence: Option<Fence>, s: Session, t: Tables)
    requires !Usable(FingerprintOf(plain)) && s == Sole(p, k, plain, at, snapshotId, fence) && t.aliases == []
    ensures OnPlatformPath(t, s) && CreatesWhatItMints(s) && Unrecognised(s, OfferKey(p, k)) && WellFormed(s)
  {
    var offers := [Listed(p, k, plain)];
    OneRequestItems(s, offers);
    SmallIsWellFormed(p, offers, [], map[], at, snapshotId, fence, s.created);
    SmallStartsOnPath(p, offers, [], at, snapshotId, fence, s.created, t);
    assert IsUnrecognised(Items(s), OfferKey(p, k), 0);
    UnrecognisedIsProvisional(Items(s), s.known, s.aliases, OfferKey(p, k), 0);
    OneIsDescribed(Items(s), Answers(s), s.created, at);
  }

  lemma FencedOutAtOnce(t: Tables, s: Session, n: nat)
    requires WellSized(s) && |s.requests| == 1 && n == 0 && TransactionTook(t, s, n)
    requires s.fences[n].Some? && s.ledgers[n + 1] == map[]
    ensures LosesItsFence(s, Through(t, s, n))
  {
    ThroughExecutes(t, s, n);
  }

  lemma SoleLosesItsFence(t: Tables, s: Session, n: nat, key: OfferKey) returns (trace: seq<Tables>, k: nat)
    requires t == EMPTY && n == 0 && OnPlatformPath(t, s) && |s.requests| == 1 && CreatesWhatItMints(s) && Unrecognised(s, key)
    requires s.fences[n].Some? && s.ledgers[n + 1] == map[]
    ensures trace != [] && trace[0] == t && LosesItsFence(s, trace)
    ensures var u := trace[|trace| - 1];
            k < |s.created| && Stuck(u, key, s.created[k]) && u.aliases == [] && SoundHistory(u)
  {
    CreationRefusedIff(t, s);
    trace := Through(t, s, n);
    FencedOutAtOnce(t, s, n);
    k := LostFenceLeavesIdentity(s, trace, key);
    NothingIsCommitted(s, trace, |trace| - 1);
    RefreshKeepsHistory(s, trace, |trace| - 1);
  }

  /** One provider, one unrecognised model, an operation no longer in the ledger, and then the same again later. */
  lemma LostFenceHappens(p: string, k: string, plain: Description, at: real, later: real, fence: Fence)
    returns (s: Session, trace: seq<Tables>, next: Session)
    requires !Usable(FingerprintOf(plain)) && at != later
    ensures LosesItsFence(s, trace) && trace[0] == EMPTY && OnPlatformPath(EMPTY, s) && Unrecognised(s, OfferKey(p, k))
    ensures OnPlatformPath(trace[|trace| - 1], next) && WellFormed(next) && CreatesWhatItMints(next) && Unrecognised(next, OfferKey(p, k))
    ensures !TransactionTook(trace[|trace| - 1], next, 0)
  {
    var key := OfferKey(p, k);
    s := Sole(p, k, plain, at, "first", Some(fence));
    SoleIsUnrecognised(p, k, plain, at, "first", Some(fence), s, EMPTY);
    var r;
    trace, r := SoleLosesItsFence(EMPTY, s, 0, key);
    var t := trace[|trace| - 1];
    next := Sole(p, k, plain, later, "second", Some(fence));
    SoleIsUnrecognised(p, k, plain, later, "second", Some(fence), next, t);
    TryIsRefused(t, next, key, s.created[r]);
  }
}
