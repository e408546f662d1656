/**
 * Refreshes that are given no approved aliases, as when the service is used on its own: the latest decisions
 * are then read from the whole history, but the reconciler is told nothing of it. Every check of the commit
 * still passes, and the identity of a key is what its discovery and the known identities make it.
 */
module AliasFreeRuns {
  import opened Common
  import opened Domain
  import opened IdentifierComponents
  import opened InventoryTables
  import opened LedgerRuns
  import opened AliasTimeline
  import opened IdentityReconciler
  import opened InventoryRefresh
  import opened LostFences
  import opened RefreshPlan
  import opened SmallRefreshes
  import opened StickyIdentities
  import opened RefreshRuns
  import opened RefreshCommits

  // ----- What an offer is given -----

  ghost function KnownUnder(known: seq<Known>, fingerprint: Fingerprint): set<IdentityId> {
    set k | k in known && k.fingerprint == fingerprint :: k.identityId
  }

  /** The identities an offer's fingerprint leads to: those of partnered offers of that fingerprint, and the known ones. */
  ghost function FingerprintLeads(items: seq<Item>, known: seq<Known>, i: nat): set<IdentityId>
    requires i < |items|
  {
    PartneredIdentities(items, i) + KnownUnder(known, items[i].fingerprint)
  }

  /**
   * The identity of an offer without aliases, said of the discovery and the known identities: its component's;
   * else, under a usable fingerprint, the only one it leads to, or a new one shared with its unpartnered twins
   * when it leads to none; else the key's own.
   */
  ghost function IdentityFree(items: seq<Item>, known: seq<Known>, i: nat): IdentityId
    requires i < |items|
  {
    var leads := FingerprintLeads(items, known, i);
    if HasPartner(Nodes(items), i) then FromIdentifier(LabelOf(items, i), items[i].fingerprint.behavior)
    else if Usable(items[i].fingerprint) && |leads| == 1 then Only(leads)
    else if Usable(items[i].fingerprint) && leads == {} && HasUnpartneredTwin(items, i)
    then FromFingerprint(items[i].fingerprint)
    else OwnIdentity(items[i].key)
  }

  lemma AliasFreeIdentity(items: seq<Item>, known: seq<Known>, i: nat)
    requires i < |items|
    ensures Assigned(items, known, map[], i).identityId == IdentityFree(items, known, i)
    ensures Assigned(items, known, map[], i).minted <==>
            HasPartner(Nodes(items), i) || !(Usable(items[i].fingerprint) && |FingerprintLeads(items, known, i)| == 1)
  {
    assert forall j :: ComponentTargets(items, map[], j) == {};
    assert forall j :: 0 <= j < |items| ==> (ByComponent(items, map[], j).Some? <==> HasPartner(Nodes(items), j));
    assert FingerprintTargets(items, known, map[], i) == FingerprintLeads(items, known, i);
  }

  /** A refresh without aliases that commits a key keeps its identity exactly when it is the one its last offer is given. */
  lemma AliasFreeRefreshKeepsIff(t: Tables, s: Session, n: nat, j: nat, a: nat, key: OfferKey)
    requires WellSized(s) && n < |s.requests| && s.aliases == map[] && IsLastOf(s, a, key)
    requires j < |Discovered(s.requests[n]).offers| && KeyOf(Discovered(s.requests[n]).offers[j]) == key
    requires TransactionTook(t, s, n + 1) && Timeline(t.aliases, key) != []
    ensures EndsIn(Executed(t, s, n + 1), key, IdentityFree(Items(s), s.known, a))
    ensures EndsIn(Executed(t, s, n + 1), key, LastOf(Timeline(t.aliases, key)).identityId) <==>
            IdentityFree(Items(s), s.known, a) == LastOf(Timeline(t.aliases, key)).identityId
  {
    AliasFreeIdentity(Items(s), s.known, a);
    ListedEndsIn(t, s, n, j, a, key, IdentityFree(Items(s), s.known, a));
  }

  /** The last decision about the key names the identity. */
  ghost predicate EndsIn(t: Tables, key: OfferKey, id: IdentityId) {
    Timeline(t.aliases, key) != [] && LastOf(Timeline(t.aliases, key)).identityId == id
  }

  /** A lone offer is given the one identity known under its usable fingerprint, and otherwise the key's own. */
  lemma AloneIsKnownOrOwn(items: seq<Item>, known: seq<Known>)
    requires |items| == 1
    ensures var under := KnownUnder(known, items[0].fingerprint);
            IdentityFree(items, known, 0)
            == if Usable(items[0].fingerprint) && |under| == 1 then Only(under) else OwnIdentity(items[0].key)
    ensures FingerprintLeads(items, known, 0) == KnownUnder(known, items[0].fingerprint)
    ensures !HasPartner(Nodes(items), 0)
  {
    assert !HasPartner(Nodes(items), 0);
    assert FingerprintLeads(items, known, 0) == KnownUnder(known, items[0].fingerprint);
  }

  // ----- The order check without aliases -----

  /** Reading the latest decisions from the history is enough for the order check to pass. */
  lemma OwnReadingPassesOrderCheck(rows: seq<AliasRow>, keys: set<OfferKey>, key: OfferKey, completedAt: real)
    requires GapFree(Timeline(rows, key)) && key in keys
    ensures CurrentDecision(rows, key).Some? ==>
              CurrentDecision(rows, key).value < DecisionTime(LatestInHistory(rows, keys), key, completedAt)
  {
    CurrentIsLast(rows, key);
    HistoryLatestIsNewest(rows, keys, key);
  }

  /** Nothing the commit of request `n` is about to write is there yet, and its identities are. */
  ghost predicate ReadyFor(t: Tables, s: Session, n: nat)
    requires WellSized(s) && n < |s.requests|
  {
    NewSnapshot(t.snapshots, s.snapshotIds[n])
    && forall key :: key in SessionOutcomes(s) ==>
         NewAlias(t.aliases, Recorded(s.snapshotIds[n], key)) && SessionOutcomes(s)[key].identityId in t.identities
  }

  lemma AliasFreeDecisionIsWritable(t: Tables, s: Session, n: nat, k: nat)
    requires WellSized(s) && n < |s.requests| && SoundHistory(t) && ReadyFor(t, s, n)
    requires s.latest == LatestInHistory(t.aliases, SessionOutcomes(s).Keys)
    requires ValidInventory(SessionSnapshot(s, n)) && k < |SessionDecisions(s, n)|
    ensures Writable(t.identities.Keys, t.aliases, SessionDecisions(s, n)[k])
  {
    var key := AliasKey(SessionDecisions(s, n)[k]);
    DecisionIsSupported(s, n, k);
    var l := DecidedKeyIsOwn(s, n, key);
    assert l == k;
    OwnReadingPassesOrderCheck(t.aliases, SessionOutcomes(s).Keys, key, s.stamp.completedAt);
  }

  /** So without aliases, too, a well-formed commit is refused only by its fence. */
  lemma AliasFreeCommit(t: Tables, s: Session, n: nat)
    requires WellSized(s) && n < |s.requests| && SoundHistory(t) && ReadyFor(t, s, n) && WellFormed(s)
    requires s.latest == LatestInHistory(t.aliases, SessionOutcomes(s).Keys)
    ensures TransactionTook(t, s, n + 1) <==> (s.fences[n].Some? ==> FenceHolds(s.ledgers[n + 1], s.fences[n].value))
  {
    DecisionsAreDistinct(s, n);
    forall k | 0 <= k < |SessionDecisions(s, n)|
      ensures Writable(t.identities.Keys, t.aliases, SessionDecisions(s, n)[k])
    {
      AliasFreeDecisionIsWritable(t, s, n, k);
    }
    WritableCommit(t, s, n);
  }

  lemma ThroughRuns(t: Tables, s: Session, n: nat)
    requires WellSized(s) && |s.requests| == 1 && n == 0
    requires TransactionTook(t, s, n) && TransactionTook(Executed(t, s, n), s, n + 1)
    ensures RanTo(s, Through(t, s, n), t, Executed(Executed(t, s, n), s, n + 1), true)
  {
    ThroughExecutes(t, s, n);
  }

  // ----- A first refresh lists an unrecognised model and a recognised one -----

  lemma UnnamedHasNoComponent(items: seq<Item>, i: nat)
    requires i < |items| && items[i].identifiers == []
    ensures ByComponent(items, map[], i).None?
  {
    UnnamedHasNoPartner(items, i);
  }

  /** Where nothing is named, known or approved, a model no other offer resembles gets an identity of its own. */
  lemma UnnamedIsProvisional(items: seq<Item>, i: nat)
    requires i < |items| && forall j :: 0 <= j < |items| ==> items[j].identifiers == []
    requires forall j :: 0 <= j < |items| && items[j].fingerprint == items[i].fingerprint ==> j == i
    ensures Assigned(items, [], map[], i) == Assignment(OwnIdentity(items[i].key), PROVISIONAL, true)
  {
    forall j | 0 <= j < |items| ensures ByComponent(items, map[], j).None? {
      UnnamedHasNoComponent(items, j);
    }
    assert FingerprintTargets(items, [], map[], i) == {};
  }

  function FirstOffers(p: string, k: string, l: string, plain: Description, known: Description): seq<DiscoveredOffer> {
    [Listed(p, k, plain), Listed(p, l, known)]
  }

  function FirstRefresh(p: string, k: string, l: string, plain: Description, known: Description, at: real): Session {
    Small(p, FirstOffers(p, k, l, plain, known), [], map[], at, "first", None,
          [Provisional(OfferKey(p, k), plain, at), Provisional(OfferKey(p, l), known, at)])
  }

  lemma EachIsDescribed(items: seq<Item>, answers: seq<Assignment>, created: seq<ModelIdentity>, at: real)
    requires |items| == |answers| == |created| == 2 && items[0].key != items[1].key
    requires forall i :: 0 <= i < 2 ==> answers[i] == Assignment(OwnIdentity(items[i].key), PROVISIONAL, true)
    requires forall i :: 0 <= i < 2 ==> created[i] == Provisional(items[i].key, items[i].description, at)
    ensures CreatesOnce(items, answers, created)
  {
    forall i | 0 <= i < 2 ensures IsDescribed(items, answers, created[i]) && CreatedAs(created, answers[i].identityId) {
      assert CreatedFrom(items, answers, created[i], created[i].identityId, i);
      assert created[i].identityId == answers[i].identityId;
    }
  }

  lemma TwoAreDescribed(items: seq<Item>, answers: seq<Assignment>, created: seq<ModelIdentity>, at: real)
    requires |items| == |answers| == 2 && items[0].key != items[1].key
    requires forall i :: 0 <= i < 2 ==> answers[i] == Assignment(OwnIdentity(items[i].key), PROVISIONAL, true)
    requires created == [Provisional(items[0].key, items[0].description, at), Provisional(items[1].key, items[1].description, at)]
    ensures CreatesOnce(items, answers, created)
  {
    EachIsDescribed(items, answers, created, at);
  }

  lemma TwoAreProvisional(items: seq<Item>, answers: seq<Assignment>)
    requires |items| == |answers| == 2 && items[0].identifiers == items[1].identifiers == []
    requires items[0].fingerprint != items[1].fingerprint
    requires forall i :: 0 <= i < 2 ==> answers[i] == Assigned(items, [], map[], i)
    ensures forall i :: 0 <= i < 2 ==> answers[i] == Assignment(OwnIdentity(items[i].key), PROVISIONAL, true)
  {
    forall i | 0 <= i < 2 ensures answers[i] == Assignment(OwnIdentity(items[i].key), PROVISIONAL, true) {
      UnnamedIsProvisional(items, i);
    }
  }

  /** Two unnamed offers, one of them recognised, each have their own identity created. */
  lemma TwoAreCreated(s: Session, at: real)
    requires |Items(s)| == 2 && Items(s)[0].identifiers == Items(s)[1].identifiers == []
    requires Items(s)[0].fingerprint != Items(s)[1].fingerprint && Items(s)[0].key != Items(s)[1].key
    requires s.known == [] && s.aliases == map[]
    requires s.created == [Provisional(Items(s)[0].key, Items(s)[0].description, at),
                           Provisional(Items(s)[1].key, Items(s)[1].description, at)]
    ensures CreatesWhatItMints(s)
    ensures forall i :: 0 <= i < 2 ==> Answers(s)[i] == Assignment(OwnIdentity(Items(s)[i].key), PROVISIONAL, true)
  {
    TwoAreProvisional(Items(s), Answers(s));
    TwoAreDescribed(Items(s), Answers(s), s.created, at);
  }

  lemma FirstItems(p: string, k: string, l: string, plain: Description, known: Description, at: real, s: Session)
    requires !Usable(FingerprintOf(plain)) && Usable(FingerprintOf(known)) && s == FirstRefresh(p, k, l, plain, known, at)
    ensures |Items(s)| == 2 && Items(s)[0].identifiers == Items(s)[1].identifiers == []
    ensures Items(s)[0].fingerprint != Items(s)[1].fingerprint
    ensures Items(s)[0].key == OfferKey(p, k) && Items(s)[1].key == OfferKey(p, l)
    ensures Items(s)[0].description == plain && Items(s)[1].description == known
  {
    OneRequestItems(s, FirstOffers(p, k, l, plain, known));
    ListedIsUnnamed(p, k, plain);
    ListedIsUnnamed(p, l, known);
  }

  lemma FirstReconciled(s: Session)
    requires WellSized(s) && CreatesWhatItMints(s) && s.aliases == map[] && s.known == [] && s.latest == map[]
    ensures Reconciled(s, [], None, map[], [])
  {
  }

  lemma EnsuredIsStored(t: Tables, s: Session, n: nat)
    requires WellSized(s) && n == 0 && TransactionTook(t, s, n) && SoundHistory(t)
    ensures var u := Executed(t, s, n);
            SoundHistory(u) && u.aliases == t.aliases && u.snapshots == t.snapshots
            && (forall id :: id in t.identities ==> id in u.identities)
            && forall k :: 0 <= k < |s.created| ==> s.created[k].identityId in u.identities
  {
    EnsureEffect(t, s);
    EnsuringOnlyAdds(t.identities, s.created);
    ExecutionKeepsHistory(t, s, n);
  }

  /** A well-formed refresh of one request, with new ids and no fence, goes through. */
  lemma SmallTakes(t: Tables, s: Session, n: nat)
    requires WellSized(s) && |s.requests| == 1 && n == 0 && TransactionTook(t, s, n) && SoundHistory(t) && WellFormed(s)
    requires ReadyFor(Executed(t, s, n), s, n) && s.fences[n] == None
    requires s.latest == LatestInHistory(t.aliases, SessionOutcomes(s).Keys)
    ensures TransactionTook(Executed(t, s, n), s, n + 1)
  {
    EnsuredIsStored(t, s, n);
    AliasFreeCommit(Executed(t, s, n), s, n);
  }

  lemma FirstIsReady(t: Tables, s: Session, n: nat)
    requires WellSized(s) && n < |s.requests| && t.aliases == [] && t.snapshots == []
    requires forall i :: 0 <= i < |Items(s)| ==> Answers(s)[i].identityId in t.identities
    ensures ReadyFor(t, s, n)
  {
    forall key | key in SessionOutcomes(s) ensures SessionOutcomes(s)[key].identityId in t.identities {
      var i := OutcomeIsAnswer(s, key);
    }
  }

  /** What a first refresh that goes through leaves of a key it listed, and of the ids of the next one. */
  lemma FirstLeaves(t: Tables, s: Session, n: nat, key: OfferKey, id: IdentityId, next: string)
    requires WellSized(s) && n < |s.requests| && t.aliases == [] && t.snapshots == [] && TransactionTook(t, s, n + 1)
    requires SoundHistory(t) && Discovered(s.requests[n]).offers != [] && KeyOf(Discovered(s.requests[n]).offers[0]) == key
    requires IsLastOf(s, 0, key) && Answers(s)[0].identityId == id && next != s.snapshotIds[n]
    ensures var u := Executed(t, s, n + 1);
            SoundHistory(u) && u.identities == t.identities && Extends([], Timeline(u.aliases, key), id)
            && NewAlias(u.aliases, Recorded(next, key)) && NewSnapshot(u.snapshots, next)
  {
    ListedEndsIn(t, s, n, 0, 0, key, id);
    CommitLeaves(t, s, n, Recorded(next, key), next);
    ExecutionKeepsHistory(t, s, n + 1);
  }

  lemma FirstTakes(t: Tables, s: Session, n: nat)
    requires WellSized(s) && |s.requests| == 1 && n == 0 && t == EMPTY && WellFormed(s) && CreatesWhatItMints(s)
    requires forall i :: 0 <= i < |Items(s)| ==> Answers(s)[i].minted
    requires s.latest == map[] && s.fences[n] == None
    ensures TransactionTook(t, s, n) && TransactionTook(Executed(t, s, n), s, n + 1)
    ensures var u := Executed(t, s, n);
            SoundHistory(u) && u.aliases == [] && u.snapshots == []
            && forall i :: 0 <= i < |Items(s)| ==> Answers(s)[i].identityId in u.identities
  {
    CreationRefusedIff(t, s);
    EnsuredIsStored(t, s, n);
    forall i | 0 <= i < |Items(s)| ensures Answers(s)[i].identityId in Executed(t, s, n).identities {
      assert CreatedAs(s.created, Answers(s)[i].identityId);
    }
    FirstIsReady(Executed(t, s, n), s, n);
    SmallTakes(t, s, n);
  }

  lemma SingleKey(s: Session, key: OfferKey)
    requires |Items(s)| == 1 && Items(s)[0].key == key
    ensures SessionOutcomes(s).Keys == {key} && SessionOutcomes(s)[key] == Answers(s)[0]
  {
    var i := OutcomeIsAnswer(s, key);
    forall other | other in SessionOutcomes(s) ensures other == key {
      var j := OutcomeIsAnswer(s, other);
    }
  }

  lemma NothingToCreate(items: seq<Item>, answers: seq<Assignment>)
    requires |items| == |answers| == 1 && !answers[0].minted
    ensures CreatesOnce(items, answers, [])
  {
  }

  /** A lone recognised model without aliases is given the identity known under its fingerprint. */
  lemma LaterCreates(s: Session, key: OfferKey, id: IdentityId)
    requires |Items(s)| == 1 && Items(s)[0].key == key && s.created == [] && s.aliases == map[]
    requires Usable(Items(s)[0].fingerprint) && KnownUnder(s.known, Items(s)[0].fingerprint) == {id}
    ensures CreatesWhatItMints(s)
    ensures SessionOutcomes(s).Keys == {key} && SessionOutcomes(s)[key].identityId == id
  {
    AloneIsKnownOrOwn(Items(s), s.known);
    AliasFreeIdentity(Items(s), s.known, 0);
    NothingToCreate(Items(s), Answers(s));
    SingleKey(s, key);
  }

  lemma LaterTakes(t: Tables, s: Session, n: nat, key: OfferKey, id: IdentityId)
    requires WellSized(s) && |s.requests| == 1 && n == 0 && SoundHistory(t) && WellFormed(s) && s.fences[n] == None
    requires s.created == [] && CreatesWhatItMints(s) && id in t.identities
    requires SessionOutcomes(s).Keys == {key} && SessionOutcomes(s)[key].identityId == id
    requires s.latest == LatestInHistory(t.aliases, {key})
    requires NewAlias(t.aliases, Recorded(s.snapshotIds[n], key)) && NewSnapshot(t.snapshots, s.snapshotIds[n])
    ensures TransactionTook(t, s, n) && TransactionTook(Executed(t, s, n), s, n + 1)
    ensures Executed(t, s, n).aliases == t.aliases
  {
    CreationRefusedIff(t, s);
    EnsuredIsStored(t, s, n);
    SmallTakes(t, s, n);
  }

  lemma CacheKnows(cache: Identities, created: seq<ModelIdentity>, known: seq<Known>)
    requires |created| == 2 && created[0].identityId != created[1].identityId && cache == map[]
    requires known == [KnownOf(created[0]), KnownOf(created[1])]
    ensures forall k :: k in known ==> IsValue(Merged(Merged(cache, created), []), k)
    ensures forall id :: id in Merged(Merged(cache, created), []) ==> KnownOf(Merged(Merged(cache, created), [])[id]) in known
  {
    var all := Merged(Merged(cache, created), []);
    assert all == Merged(cache, created);
    forall i | 0 <= i < 2 ensures created[i].identityId in all && all[created[i].identityId] == created[i] {
    }
    forall k | k in known ensures IsValue(all, k) {
      var i :| 0 <= i < 2 && k == KnownOf(created[i]);
      assert KnownOf(all[created[i].identityId]) == k;
    }
  }

  // ----- The run -----

  /** The first refresh is as the run needs it. */
  ghost predicate ListsTwo(s: Session, key: OfferKey, other: OfferKey) {
    WellFormed(s) && |s.requests| == 1 && CreatesWhatItMints(s) && |Items(s)| == 2
    && (forall i :: 0 <= i < 2 ==> Answers(s)[i] == Assignment(OwnIdentity(Items(s)[i].key), PROVISIONAL, true))
    && Items(s)[0].key == key && Items(s)[1].key == other && key != other
    && s.known == [] && s.aliases == map[] && s.latest == map[] && s.fences[0] == None
    && Discovered(s.requests[0]).offers != [] && KeyOf(Discovered(s.requests[0]).offers[0]) == key
  }

  lemma ListsTwoIfUnnamed(s: Session, key: OfferKey, other: OfferKey, at: real)
    requires WellFormed(s) && |s.requests| == 1 && |Items(s)| == 2
    requires Items(s)[0].identifiers == Items(s)[1].identifiers == [] && Items(s)[0].fingerprint != Items(s)[1].fingerprint
    requires Items(s)[0].key == key && Items(s)[1].key == other && key != other
    requires s.created == [Provisional(key, Items(s)[0].description, at), Provisional(other, Items(s)[1].description, at)]
    requires s.known == [] && s.aliases == map[] && s.latest == map[] && s.fences[0] == None
    requires Discovered(s.requests[0]).offers != [] && KeyOf(Discovered(s.requests[0]).offers[0]) == key
    ensures ListsTwo(s, key, other)
  {
    TwoAreCreated(s, at);
  }

  lemma FirstListsTwo(p: string, k: string, l: string, plain: Description, known: Description, at: real, s: Session)
    requires k != l && !Usable(FingerprintOf(plain)) && Usable(FingerprintOf(known))
    requires s == FirstRefresh(p, k, l, plain, known, at)
    ensures ListsTwo(s, OfferKey(p, k), OfferKey(p, l))
  {
    FirstItems(p, k, l, plain, known, at, s);
    SmallIsWellFormed(p, FirstOffers(p, k, l, plain, known), [], map[], at, "first", None, s.created);
    ListsTwoIfUnnamed(s, OfferKey(p, k), OfferKey(p, l), at);
  }

  /** What a first refresh of two offers leaves: a history of the first, the identity of the second, and room for the next. */
  ghost predicate FirstLeft(t: Tables, key: OfferKey, other: OfferKey, next: string) {
    SoundHistory(t) && Extends([], Timeline(t.aliases, key), OwnIdentity(key)) && OwnIdentity(other) in t.identities
    && NewAlias(t.aliases, Recorded(next, key)) && NewSnapshot(t.snapshots, next)
  }

  lemma FirstRunOf(t: Tables, s: Session, n: nat, key: OfferKey, other: OfferKey, next: string)
    requires n == 0 && t == EMPTY && ListsTwo(s, key, other) && next != s.snapshotIds[n]
    ensures TransactionTook(t, s, n) && TransactionTook(Executed(t, s, n), s, n + 1)
    ensures FirstLeft(Executed(Executed(t, s, n), s, n + 1), key, other, next)
  {
    FirstTakes(t, s, n);
    FirstLeaves(Executed(t, s, n), s, n, key, OwnIdentity(key), next);
  }

  lemma FirstRuns(t: Tables, s: Session, n: nat, key: OfferKey, other: OfferKey, next: string) returns (trace: seq<Tables>)
    requires n == 0 && t == EMPTY && ListsTwo(s, key, other) && next != s.snapshotIds[n]
    ensures trace != [] && RanTo(s, trace, t, trace[|trace| - 1], true)
    ensures FirstLeft(trace[|trace| - 1], key, other, next)
  {
    FirstRunOf(t, s, n, key, other, next);
    ThroughRuns(t, s, n);
    trace := Through(t, s, n);
  }

  // ----- The next one recognises the first model as the second -----

  function NextRefresh(p: string, k: string, known: Description, cached: seq<Known>, latest: Latest, at: real): Session {
    Small(p, [Listed(p, k, known)], cached, latest, at, "second", None, [])
  }

  /** A refresh of one recognised offer that is known under one identity. */
  ghost predicate ListsOne(s: Session, key: OfferKey, id: IdentityId) {
    WellFormed(s) && |s.requests| == 1 && |Items(s)| == 1 && Items(s)[0].key == key
    && Usable(Items(s)[0].fingerprint) && KnownUnder(s.known, Items(s)[0].fingerprint) == {id}
    && s.created == [] && s.aliases == map[] && s.fences[0] == None
    && Discovered(s.requests[0]).offers != [] && KeyOf(Discovered(s.requests[0]).offers[0]) == key
  }

  lemma NextListsOne(p: string, k: string, known: Description, cached: seq<Known>, latest: Latest, at: real, id: IdentityId)
    requires Usable(FingerprintOf(known)) && KnownUnder(cached, FingerprintOf(known)) == {id}
    ensures ListsOne(NextRefresh(p, k, known, cached, latest, at), OfferKey(p, k), id)
  {
    var offers := [Listed(p, k, known)];
    OneRequestItems(NextRefresh(p, k, known, cached, latest, at), offers);
    SmallIsWellFormed(p, offers, cached, latest, at, "second", None, []);
  }

  lemma LaterRuns(t: Tables, s: Session, n: nat, key: OfferKey, id: IdentityId) returns (trace: seq<Tables>)
    requires n == 0 && ListsOne(s, key, id) && SoundHistory(t) && id in t.identities
    requires s.latest == LatestInHistory(t.aliases, {key})
    requires NewAlias(t.aliases, Recorded(s.snapshotIds[n], key)) && NewSnapshot(t.snapshots, s.snapshotIds[n])
    ensures CreatesWhatItMints(s) && SessionOutcomes(s).Keys == {key}
    ensures trace != [] && RanTo(s, trace, t, trace[|trace| - 1], true)
    ensures Extends(Timeline(t.aliases, key), Timeline(trace[|trace| - 1].aliases, key), id)
  {
    LaterCreates(s, key, id);
    LaterTakes(t, s, n, key, id);
    ThroughRuns(t, s, n);
    trace := Through(t, s, n);
    ListedEndsIn(Executed(t, s, n), s, n, 0, 0, key, id);
  }

  lemma CacheHasOne(p: string, k: string, l: string, plain: Description, known: Description, at: real, cached: seq<Known>)
    requires !Usable(FingerprintOf(plain)) && Usable(FingerprintOf(known))
    requires cached == [KnownOf(Provisional(OfferKey(p, k), plain, at)), KnownOf(Provisional(OfferKey(p, l), known, at))]
    ensures KnownUnder(cached, FingerprintOf(known)) == {OwnIdentity(OfferKey(p, l))}
  {
    assert cached[1] in cached && cached[1].fingerprint == FingerprintOf(known);
  }

  lemma NextReconciled(s: Session, created: seq<ModelIdentity>, rows: seq<AliasRow>, key: OfferKey)
    requires WellSized(s) && CreatesWhatItMints(s) && s.aliases == map[] && SessionOutcomes(s).Keys == {key}
    requires |created| == 2 && created[0].identityId != created[1].identityId
    requires s.known == [KnownOf(created[0]), KnownOf(created[1])] && s.latest == LatestInHistory(rows, {key})
    ensures Reconciled(s, [], None, Merged(map[], created), rows)
  {
    CacheKnows(map[], created, s.known);
  }

  lemma NextRun(
    t: Tables, p: string, k: string, known: Description, later: real, created: seq<ModelIdentity>, cached: seq<Known>,
    id: IdentityId)
    returns (s: Session, trace: seq<Tables>)
    requires Usable(FingerprintOf(known)) && KnownUnder(cached, FingerprintOf(known)) == {id} && id in t.identities
    requires |created| == 2 && created[0].identityId != created[1].identityId
    requires cached == [KnownOf(created[0]), KnownOf(created[1])]
    requires SoundHistory(t) && NewAlias(t.aliases, Recorded("second", OfferKey(p, k))) && NewSnapshot(t.snapshots, "second")
    ensures s.requests == [Answering(p, [Listed(p, k, known)])] && Reconciled(s, [], None, Merged(map[], created), t.aliases)
    ensures trace != [] && RanTo(s, trace, t, trace[|trace| - 1], true)
    ensures Extends(Timeline(t.aliases, OfferKey(p, k)), Timeline(trace[|trace| - 1].aliases, OfferKey(p, k)), id)
  {
    var key := OfferKey(p, k);
    s := NextRefresh(p, k, known, cached, LatestInHistory(t.aliases, {key}), later);
    NextListsOne(p, k, known, cached, s.latest, later, id);
    trace := LaterRuns(t, s, 0, key, id);
    NextReconciled(s, created, t.aliases, key);
  }

  /**
   * Identities are not sticky without aliases. A service on its own that first lists a model it does not
   * recognise beside one it does, and next recognises the first as the second, moves the first one's history
   * from its own identity to the other's, although nothing is refused.
   */
  lemma IdentityMovesWithoutAliases(
    p: string, k: string, l: string, plain: Description, known: Description, at: real, later: real)
    returns (first: Session, begun: seq<Tables>, next: Session, ended: seq<Tables>)
    requires k != l && !Usable(FingerprintOf(plain)) && Usable(FingerprintOf(known))
    ensures begun != [] && ended != []
    ensures RanTo(first, begun, EMPTY, begun[|begun| - 1], true) && Reconciled(first, [], None, map[], [])
    ensures RanTo(next, ended, begun[|begun| - 1], ended[|ended| - 1], true)
    ensures Reconciled(next, [], None, Merged(map[], first.created), begun[|begun| - 1].aliases)
    ensures EndsIn(begun[|begun| - 1], OfferKey(p, k), OwnIdentity(OfferKey(p, k)))
    ensures EndsIn(ended[|ended| - 1], OfferKey(p, k), OwnIdentity(OfferKey(p, l)))
  {
    first := FirstRefresh(p, k, l, plain, known, at);
    FirstListsTwo(p, k, l, plain, known, at, first);
    begun := FirstRuns(EMPTY, first, 0, OfferKey(p, k), OfferKey(p, l), "second");
    FirstReconciled(first);
    var t, cached := begun[|begun| - 1], [KnownOf(first.created[0]), KnownOf(first.created[1])];
    CacheHasOne(p, k, l, plain, known, at, cached);
    next, ended := NextRun(t, p, k, known, later, first.created, cached, OwnIdentity(OfferKey(p, l)));
  }

  /** A description that recognises nothing, and one that recognises a model. */
  lemma OneIsRecognised() returns (plain: Description, known: Description)
    ensures !Usable(FingerprintOf(plain)) && Usable(FingerprintOf(known))
  {
    var small;
    plain, small := TwoQuantizations();
    known := Description("acme", "model", None, None, None, None, None, "model");
    PlainWordIsNormal("acme");
    PlainWordIsNormal("model");
  }

  /** Such a run exists. */
  lemma SomeIdentityMoves(at: real, later: real)
    returns (first: Session, begun: seq<Tables>, next: Session, ended: seq<Tables>, key: OfferKey)
    ensures begun != [] && ended != []
    ensures RanTo(first, begun, EMPTY, begun[|begun| - 1], true) && Reconciled(first, [], None, map[], [])
    ensures RanTo(next, ended, begun[|begun| - 1], ended[|ended| - 1], true)
    ensures Reconciled(next, [], None, Merged(map[], first.created), begun[|begun| - 1].aliases)
    ensures EndsIn(begun[|begun| - 1], key, OwnIdentity(key))
    ensures Timeline(ended[|ended| - 1].aliases, key) != [] && !EndsIn(ended[|ended| - 1], key, OwnIdentity(key))
  {
    var plain, known := OneIsRecognised();
    key := OfferKey("openrouter", "acme/preview");
    first, begun, next, ended := IdentityMovesWithoutAliases("openrouter", "acme/preview", "acme/model", plain, known, at, later);
    assert OwnIdentity(key) != OwnIdentity(OfferKey("openrouter", "acme/model")) by {
      assert |"acme/preview"| != |"acme/model"|;
    }
  }
}
