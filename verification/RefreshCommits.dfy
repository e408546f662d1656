/** When the commits of a refresh on the platform path are refused: by their fence and by nothing else. */
module RefreshCommits {
  import opened Common
  import opened Domain
  import opened InventoryTables
  import opened LedgerRuns
  import opened AliasTimeline
  import opened IdentityReconciler
  import opened RefreshPlan
  import opened StickyIdentities
  import opened RefreshRuns

  // ----- Every assigned identity exists -----

  ghost predicate Exists(items: seq<Item>, known: seq<Known>, aliases: Aliases, id: IdentityId) {
    id in aliases.Values || (exists k :: k in known && k.identityId == id)
    || exists j :: IsMinted(items, known, aliases, id, j)
  }

  ghost predicate IsMinted(items: seq<Item>, known: seq<Known>, aliases: Aliases, id: IdentityId, j: nat) {
    j < |items| && Assigned(items, known, aliases, j).minted && Assigned(items, known, aliases, j).identityId == id
  }

  lemma ComponentAnswerExists(items: seq<Item>, known: seq<Known>, aliases: Aliases, i: nat)
    requires i < |items| && ByComponent(items, aliases, i).Some?
    ensures Exists(items, known, aliases, ByComponent(items, aliases, i).value.identityId)
  {
    var answer := ByComponent(items, aliases, i).value;
    if answer.minted {
      assert ByFingerprint(items, known, aliases, i) == Some(answer);
      assert IsMinted(items, known, aliases, answer.identityId, i);
    } else if items[i].key !in aliases {
      assert answer.identityId in ComponentTargets(items, aliases, i);
    }
  }

  /** An offer is only ever given an approved, a known or a newly minted identity. */
  lemma AnswerExists(items: seq<Item>, known: seq<Known>, aliases: Aliases, i: nat)
    requires i < |items|
    ensures Exists(items, known, aliases, Assigned(items, known, aliases, i).identityId)
  {
    var answer := Assigned(items, known, aliases, i);
    if ByComponent(items, aliases, i).Some? {
      ComponentAnswerExists(items, known, aliases, i);
    } else if answer.minted {
      assert IsMinted(items, known, aliases, answer.identityId, i);
    } else {
      assert answer.identityId in FingerprintTargets(items, known, aliases, i);
      if j :| 0 <= j < |items| && ByComponent(items, aliases, j).Some?
              && ByComponent(items, aliases, j).value.identityId == answer.identityId {
        ComponentAnswerExists(items, known, aliases, j);
      }
    }
  }

  ghost predicate KnownAreStored(t: Tables, s: Session) {
    forall k :: k in s.known ==> k.identityId in t.identities
  }

  lemma AliasesAreStored(t: Tables, s: Session, id: IdentityId)
    requires SoundHistory(t) && OnPlatformPath(t, s) && id in s.aliases.Values
    ensures id in t.identities
  {
    var key :| key in s.aliases && s.aliases[key] == id;
    var approved := OpenAliases(t.aliases, Providers(s));
    var k := ActiveSource(approved, key);
    var i := OpenAliasesAreRows(t.aliases, Providers(s), k);
  }

  lemma MintedIsStored(t: Tables, s: Session, id: IdentityId, j: nat)
    requires IsMinted(Items(s), s.known, s.aliases, id, j) && CreatesWhatItMints(s)
    requires Ensured(t.identities, s.created).Some?
    ensures id in Ensured(t.identities, s.created).value
  {
    assert Answers(s)[j].minted && CreatedAs(s.created, Answers(s)[j].identityId);
    EnsuringOnlyAdds(t.identities, s.created);
  }

  lemma AnswerIsStored(t: Tables, s: Session, i: nat)
    requires SoundHistory(t) && OnPlatformPath(t, s) && KnownAreStored(t, s) && CreatesWhatItMints(s)
    requires Ensured(t.identities, s.created).Some? && i < |Items(s)|
    ensures Answers(s)[i].identityId in Ensured(t.identities, s.created).value
  {
    var id := Answers(s)[i].identityId;
    AnswerExists(Items(s), s.known, s.aliases, i);
    if j :| IsMinted(Items(s), s.known, s.aliases, id, j) {
      MintedIsStored(t, s, id, j);
    } else {
      if id in s.aliases.Values {
        AliasesAreStored(t, s, id);
      }
      EnsuringOnlyAdds(t.identities, s.created);
    }
  }

  lemma OutcomeIsStored(t: Tables, s: Session, key: OfferKey)
    requires SoundHistory(t) && OnPlatformPath(t, s) && KnownAreStored(t, s) && CreatesWhatItMints(s)
    requires Ensured(t.identities, s.created).Some? && key in SessionOutcomes(s)
    ensures SessionOutcomes(s)[key].identityId in Ensured(t.identities, s.created).value
  {
    var i := OutcomeIsAnswer(s, key);
    AnswerIsStored(t, s, i);
  }

  // ----- What the earlier commits of the same refresh leave alone -----

  lemma CommitAdds(
    t: Tables, snapshot: Snapshot, decisions: seq<AliasDecision>, fence: Option<Fence>, id: AliasId, snapshotId: string)
    requires AfterCommit(t, snapshot, decisions, INVENTORY_ACTOR, fence).Some?
    requires NewAlias(t.aliases, id) && forall k :: 0 <= k < |decisions| ==> decisions[k].aliasId != id
    requires NewSnapshot(t.snapshots, snapshotId) && snapshot.snapshotId != snapshotId
    ensures var after := AfterCommit(t, snapshot, decisions, INVENTORY_ACTOR, fence).value;
            NewAlias(after.aliases, id) && NewSnapshot(after.snapshots, snapshotId) && after.identities == t.identities
  {
    var rows := AfterWrites(t.identities.Keys, t.aliases, decisions, INVENTORY_ACTOR).value;
    forall i | 0 <= i < |rows| ensures rows[i].decision.aliasId != id {
      BatchNames(t.identities.Keys, t.aliases, decisions, INVENTORY_ACTOR, i);
    }
  }

  lemma CommitLeaves(t: Tables, s: Session, n: nat, id: AliasId, snapshotId: string)
    requires WellSized(s) && n < |s.requests|
    requires NewAlias(t.aliases, id) && !(id.Recorded? && id.snapshotId == s.snapshotIds[n])
    requires NewSnapshot(t.snapshots, snapshotId) && snapshotId != s.snapshotIds[n]
    ensures NewAlias(Executed(t, s, n + 1).aliases, id) && NewSnapshot(Executed(t, s, n + 1).snapshots, snapshotId)
    ensures Executed(t, s, n + 1).identities == t.identities
  {
    CommitStep(t, s, n);
    var found, snapshot, decisions := t.(ledger := s.ledgers[n + 1]), SessionSnapshot(s, n), SessionDecisions(s, n);
    if AfterCommit(found, snapshot, decisions, INVENTORY_ACTOR, s.fences[n]).Some? {
      forall k | 0 <= k < |decisions| ensures decisions[k].aliasId != id {
        var i := DecisionSource(s, n, k);
      }
      CommitAdds(found, snapshot, decisions, s.fences[n], id, snapshotId);
    }
  }

  ghost predicate NewSnapshot(snapshots: seq<Snapshot>, snapshotId: string) {
    forall i :: 0 <= i < |snapshots| ==> snapshots[i].snapshotId != snapshotId
  }

  /** The ids a refresh will use are new: uuids never seen before and never twice in one refresh. */
  ghost predicate FreshIds(t: Tables, s: Session) {
    WellSized(s)
    && (forall k, l :: 0 <= k < l < |s.snapshotIds| ==> s.snapshotIds[k] != s.snapshotIds[l])
    && forall k, key :: 0 <= k < |s.snapshotIds| ==>
         NewSnapshot(t.snapshots, s.snapshotIds[k]) && NewAlias(t.aliases, Recorded(s.snapshotIds[k], key))
  }

  lemma {:induction false} IdsStayNew(s: Session, trace: seq<Tables>, n: nat, m: nat, key: OfferKey)
    requires Executes(s, trace) && FreshIds(trace[0], s) && n <= m < |s.requests| && n + 1 < |trace|
    ensures NewAlias(trace[n + 1].aliases, Recorded(s.snapshotIds[m], key))
    ensures NewSnapshot(trace[n + 1].snapshots, s.snapshotIds[m])
    ensures trace[n + 1].identities == Executed(trace[0], s, 0).identities
  {
    if n == 0 {
      EnsureEffect(trace[0], s);
      StepOf(s, trace, 0);
    } else {
      IdsStayNew(s, trace, n - 1, m, key);
      CommitLeaves(trace[n], s, n - 1, Recorded(s.snapshotIds[m], key), s.snapshotIds[m]);
      StepOf(s, trace, n);
    }
  }

  // ----- The order check -----

  lemma CurrentIsLast(rows: seq<AliasRow>, key: OfferKey)
    requires GapFree(Timeline(rows, key))
    ensures CurrentDecision(rows, key)
         == if Timeline(rows, key) == [] then None else Some(LastOf(Timeline(rows, key)).decidedAt)
  {
    CurrentIsFirstOpen(rows, key);
    OpenIsLast(Timeline(rows, key));
  }

  lemma OwnHistoryIsAsFound(s: Session, trace: seq<Tables>, n: nat, key: OfferKey)
    requires Executes(s, trace) && n < |s.requests| && n + 1 < |trace| && DistinctProviders(s.requests)
    requires key.provider == s.requests[n].provider
    ensures Timeline(trace[n + 1].aliases, key) == Timeline(trace[0].aliases, key)
  {
    var h := HistoryAlong(s, trace, key);
    HistoryWaitsItsTurn(s.requests, SessionOutcomes(s), key, h, n);
  }

  /** Every decision a valid commit carries is newer than the active decision it will replace. */
  lemma OrderCheckNeverFires(s: Session, trace: seq<Tables>, n: nat, key: OfferKey)
    requires Executes(s, trace) && n < |s.requests| && n + 1 < |trace|
    requires SoundHistory(trace[0]) && OnPlatformPath(trace[0], s)
    requires key.provider == s.requests[n].provider
    ensures CurrentDecision(trace[n + 1].aliases, key).Some? ==>
              CurrentDecision(trace[n + 1].aliases, key).value < DecisionTime(s.latest, key, s.stamp.completedAt)
  {
    OwnHistoryIsAsFound(s, trace, n, key);
    CurrentIsLast(trace[n + 1].aliases, key);
    assert s.requests[n].provider in Providers(s);
    ActiveLatestIsLast(trace[0].aliases, Providers(s), key);
  }

  // ----- The commit -----

  /** What the providers must have answered: valid snapshots, each listing a model id once. */
  ghost predicate WellFormed(s: Session) {
    WellSized(s) && forall n :: 0 <= n < |s.requests| ==> ValidInventory(SessionSnapshot(s, n)) && ListsOnce(SessionSnapshot(s, n))
  }

  ghost predicate ListsOnce(snapshot: Snapshot) {
    forall i, j :: 0 <= i < j < |snapshot.offers| ==>
      snapshot.offers[i].upstreamModelId != snapshot.offers[j].upstreamModelId
      || snapshot.offers[i].provider != snapshot.offers[j].provider
  }

  ghost predicate AllWritable(t: Tables, decisions: seq<AliasDecision>) {
    DistinctKeys(decisions)
    && (forall k, l :: 0 <= k < l < |decisions| ==> decisions[k].aliasId != decisions[l].aliasId)
    && forall k :: 0 <= k < |decisions| ==> Writable(t.identities.Keys, t.aliases, decisions[k])
  }

  lemma DecisionIsSupported(s: Session, n: nat, k: nat)
    requires WellSized(s) && n < |s.requests| && k < |SessionDecisions(s, n)|
    ensures Supported(SessionDecisions(s, n)[k], SessionSnapshot(s, n))
    ensures Decides(SessionDecisions(s, n), AliasKey(SessionDecisions(s, n)[k]))
  {
    var i := DecisionSource(s, n, k);
    assert SessionSnapshot(s, n).offers[i].identityId == SessionDecisions(s, n)[k].identityId;
  }

  lemma DecisionsAreDistinct(s: Session, n: nat)
    requires WellSized(s) && n < |s.requests|
    ensures DistinctKeys(SessionDecisions(s, n))
    ensures forall k, l :: 0 <= k < l < |SessionDecisions(s, n)| ==>
              SessionDecisions(s, n)[k].aliasId != SessionDecisions(s, n)[l].aliasId
  {
    var decisions := SessionDecisions(s, n);
    DecisionsAreOffers(SessionSnapshot(s, n).offers, s.snapshotIds[n], SessionOutcomes(s), s.latest, s.stamp.completedAt);
    forall k | 0 <= k < |decisions| ensures decisions[k].aliasId == Recorded(s.snapshotIds[n], AliasKey(decisions[k])) {
      var i := DecisionSource(s, n, k);
    }
  }

  lemma DecisionIsWritable(s: Session, trace: seq<Tables>, n: nat, k: nat)
    requires Executes(s, trace) && n < |s.requests| && n + 1 < |trace|
    requires SoundHistory(trace[0]) && OnPlatformPath(trace[0], s) && FreshIds(trace[0], s)
    requires KnownAreStored(trace[0], s) && CreatesWhatItMints(s) && TransactionTook(trace[0], s, 0)
    requires ValidInventory(SessionSnapshot(s, n)) && k < |SessionDecisions(s, n)|
    ensures Writable(trace[n + 1].identities.Keys, trace[n + 1].aliases, SessionDecisions(s, n)[k])
  {
    var key := AliasKey(SessionDecisions(s, n)[k]);
    DecisionIsSupported(s, n, k);
    var l := DecidedKeyIsOwn(s, n, key);
    assert l == k;
    IdsStayNew(s, trace, n, n, key);
    EnsureEffect(trace[0], s);
    OutcomeIsStored(trace[0], s, key);
    OrderCheckNeverFires(s, trace, n, key);
  }

  lemma WritableIsAccepted(t: Tables, snapshot: Snapshot, decisions: seq<AliasDecision>, fence: Option<Fence>)
    requires AllWritable(t, decisions) && ValidInventory(snapshot) && ListsOnce(snapshot)
    requires NewSnapshot(t.snapshots, snapshot.snapshotId)
    requires forall k :: 0 <= k < |decisions| ==> Supported(decisions[k], snapshot)
    ensures AfterCommit(t, snapshot, decisions, INVENTORY_ACTOR, fence).Some?
        <==> (fence.Some? ==> FenceHolds(t.ledger, fence.value))
  {
    WritableBatchIsWritten(t.identities.Keys, t.aliases, decisions, INVENTORY_ACTOR);
  }

  lemma WritableCommit(t: Tables, s: Session, n: nat)
    requires WellSized(s) && n < |s.requests|
    requires AllWritable(t, SessionDecisions(s, n))
    requires ValidInventory(SessionSnapshot(s, n)) && ListsOnce(SessionSnapshot(s, n))
    requires NewSnapshot(t.snapshots, s.snapshotIds[n])
    ensures TransactionTook(t, s, n + 1) <==> (s.fences[n].Some? ==> FenceHolds(s.ledgers[n + 1], s.fences[n].value))
  {
    CommitStep(t, s, n);
    forall k | 0 <= k < |SessionDecisions(s, n)| ensures Supported(SessionDecisions(s, n)[k], SessionSnapshot(s, n)) {
      DecisionIsSupported(s, n, k);
    }
    WritableIsAccepted(t.(ledger := s.ledgers[n + 1]), SessionSnapshot(s, n), SessionDecisions(s, n), s.fences[n]);
  }

  /**
   * Well-formed discoveries on the platform path: once the created identities are in, each commit takes
   * effect exactly when its fence still holds. No alias check, in particular the order check, ever fires.
   */
  lemma OnlyTheFenceRefuses(s: Session, trace: seq<Tables>, n: nat)
    requires Executes(s, trace) && n < |s.requests| && n + 1 < |trace|
    requires SoundHistory(trace[0]) && OnPlatformPath(trace[0], s) && FreshIds(trace[0], s)
    requires KnownAreStored(trace[0], s) && CreatesWhatItMints(s) && TransactionTook(trace[0], s, 0)
    requires WellFormed(s)
    ensures TransactionTook(trace[n + 1], s, n + 1)
        <==> (s.fences[n].Some? ==> FenceHolds(s.ledgers[n + 1], s.fences[n].value))
  {
    DecisionsAreDistinct(s, n);
    forall k | 0 <= k < |SessionDecisions(s, n)|
      ensures Writable(trace[n + 1].identities.Keys, trace[n + 1].aliases, SessionDecisions(s, n)[k])
    {
      DecisionIsWritable(s, trace, n, k);
    }
    IdsStayNew(s, trace, n, n, OfferKey("", ""));
    WritableCommit(trace[n + 1], s, n);
  }

  // ----- The identities a refresh creates -----

  /**
   * The created identities are refused exactly when one of them is already stored with other content,
   * and the content includes the creation time.
   */
  lemma CreationRefusedIff(t: Tables, s: Session)
    requires WellSized(s) && CreatesWhatItMints(s)
    ensures TransactionTook(t, s, 0) <==>
            forall k :: 0 <= k < |s.created| && s.created[k].identityId in t.identities ==>
              t.identities[s.created[k].identityId] == s.created[k]
  {
    EnsureEffect(t, s);
    EnsuredIffConsistent(t.identities, s.created);
  }
}
