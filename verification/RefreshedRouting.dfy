/** What a committed refresh makes of routing, said in the fields of what the provider answered. */
module RefreshedRouting {
  import opened Common
  import opened Domain
  import opened InventoryTables
  import opened AliasTimeline
  import opened LedgerRuns
  import opened SnapshotRevisions
  import opened IdentityReconciler
  import opened RefreshPlan
  import opened RefreshRuns

  /** The adapter answered, for its own provider and at its own revision. */
  ghost predicate Answered(r: Request) {
    r.answer.Some? && r.answer.value.provider == r.provider && r.answer.value.adapterRevision == r.adapterRevision
  }

  /** It listed everything, and nothing went wrong. */
  ghost predicate AnsweredInFull(r: Request) {
    Answered(r) && r.answer.value.status == Success && r.answer.value.paginationComplete
  }

  /** The row is offer `i` of the answer, under the identity it was assigned, stamped as the refresh stamps it. */
  ghost predicate IsListed(c: Candidate, r: Request, snapshotId: string, outcomes: Outcomes, stamp: Stamp, i: nat) {
    Answered(r) && i < |r.answer.value.offers|
    && c.snapshotId == snapshotId && c.completedAt == stamp.completedAt && c.expiresAt == stamp.completedAt + stamp.staleness
    && c.offer.provider == r.answer.value.offers[i].provider
    && c.offer.upstreamModelId == r.answer.value.offers[i].upstreamModelId
    && c.offer.scope == r.answer.value.offers[i].scope && c.offer.adapterRevision == r.adapterRevision
    && KeyOf(r.answer.value.offers[i]) in outcomes
    && c.offer.identityId == outcomes[KeyOf(r.answer.value.offers[i])].identityId
  }

  lemma CommittedSnapshot(t: Tables, s: Session, n: nat)
    requires WellSized(s) && n < |s.requests| && TransactionTook(t, s, n + 1)
    ensures Executed(t, s, n + 1).snapshots == t.snapshots + [SessionSnapshot(s, n)]
    ensures ValidInventory(SessionSnapshot(s, n))
    ensures forall i :: 0 <= i < |t.snapshots| ==> t.snapshots[i].snapshotId != s.snapshotIds[n]
  {
    CommitStep(t, s, n);
  }

  lemma ListedRows(r: Request, snapshotId: string, outcomes: Outcomes, stamp: Stamp, c: Candidate)
    requires Covers(outcomes, Discovered(r).offers)
    ensures c in CandidatesOf(SnapshotOf(r, snapshotId, outcomes, stamp)) <==>
            exists i :: IsListed(c, r, snapshotId, outcomes, stamp, i)
  {
    var snapshot := SnapshotOf(r, snapshotId, outcomes, stamp);
    if c in CandidatesOf(snapshot) {
      var i: nat :| i < |snapshot.offers|
                    && c == Candidate(snapshot.snapshotId, snapshot.completedAt, snapshot.expiresAt, snapshot.offers[i]);
      assert IsListed(c, r, snapshotId, outcomes, stamp, i);
    }
    if i: nat :| IsListed(c, r, snapshotId, outcomes, stamp, i) {
      assert c.offer == snapshot.offers[i];
    }
  }

  /**
   * A full answer that is committed takes its provider and scope over: until completion plus staleness exactly the
   * listed offers are routed there, each under the identity it was assigned, and from then on nothing is.
   */
  lemma FullAnswerIsRouted(t: Tables, s: Session, n: nat, now: real, c: Candidate)
    requires WellSized(s) && n < |s.requests| && TransactionTook(t, s, n + 1) && Sound(t.snapshots)
    requires AnsweredInFull(s.requests[n])
    requires forall u :: u in t.snapshots && Counts(u, s.requests[n].provider, s.requests[n].scope) ==>
               u.completedAt < s.stamp.completedAt
    requires c.offer.provider == s.requests[n].provider && c.offer.scope == s.requests[n].scope
    ensures c in AllCandidates(Executed(t, s, n + 1).snapshots, now) <==>
            now < s.stamp.completedAt + s.stamp.staleness
            && exists i :: IsListed(c, s.requests[n], s.snapshotIds[n], SessionOutcomes(s), s.stamp, i)
  {
    var snapshot := SessionSnapshot(s, n);
    CommittedSnapshot(t, s, n);
    StepAppendsSnapshots(t.(ledger := s.ledgers[n + 1]), SessionEvent(s, n + 1));
    LaterSnapshotTakesOver(t.snapshots, snapshot);
    RowsOfPartition(Executed(t, s, n + 1).snapshots, now, c);
    OutcomesCoverRequests(s.requests, Answers(s), n);
    ListedRows(s.requests[n], s.snapshotIds[n], SessionOutcomes(s), s.stamp, c);
  }

  /** Any other answer, and none at all, leaves routing as it is: it is recorded, but never routed. */
  lemma OnlyFullAnswersReroute(t: Tables, s: Session, n: nat, now: real, c: Candidate)
    requires WellSized(s) && n < |s.requests| && TransactionTook(t, s, n + 1) && Sound(t.snapshots)
    requires !AnsweredInFull(s.requests[n])
    ensures c in AllCandidates(Executed(t, s, n + 1).snapshots, now) <==> c in AllCandidates(t.snapshots, now)
  {
    CommittedSnapshot(t, s, n);
    StepAppendsSnapshots(t.(ledger := s.ledgers[n + 1]), SessionEvent(s, n + 1));
    UnfitSnapshotStaysOut(t.snapshots, SessionSnapshot(s, n), now, c);
  }

  /** An adapter that failed, or answered for something else, is recorded as a failure without offers, and decides nothing. */
  lemma UnansweredDecidesNothing(t: Tables, s: Session, n: nat)
    requires WellSized(s) && n < |s.requests| && TransactionTook(t, s, n + 1) && !Answered(s.requests[n])
    ensures Executed(t, s, n + 1).aliases == t.aliases
    ensures var rows := Executed(t, s, n + 1).snapshots;
            rows != [] && rows[|rows| - 1].provider == s.requests[n].provider && rows[|rows| - 1].status == Failure
            && rows[|rows| - 1].offers == []
  {
    CommittedSnapshot(t, s, n);
    CommitStep(t, s, n);
    assert SessionDecisions(s, n) == [];
  }

  // ----- When a decision is made, and by whom -----

  /**
   * A decision is made when the refresh completes, or a microsecond after the latest one known of its key when that
   * is not yet over.
   */
  lemma DecidedJustAfter(latest: Latest, key: OfferKey, completedAt: real)
    ensures key !in latest ==> DecisionTime(latest, key, completedAt) == completedAt
    ensures key in latest && completedAt >= latest[key].decidedAt + 0.000001 ==>
              DecisionTime(latest, key, completedAt) == completedAt
    ensures key in latest && completedAt < latest[key].decidedAt + 0.000001 ==>
              DecisionTime(latest, key, completedAt) == latest[key].decidedAt + 0.000001
  {
  }

  /** What a refresh writes of an offer: from whom it has it, how sure it is, and that no person reviewed it before. */
  lemma RecordedDecision(s: Session, n: nat, k: nat) returns (i: nat)
    requires WellSized(s) && n < |s.requests| && k < |SessionDecisions(s, n)|
    ensures var d, r := SessionDecisions(s, n)[k], s.requests[n];
            Answered(r) && i < |r.answer.value.offers| && KeyOf(r.answer.value.offers[i]) in SessionOutcomes(s)
            && var outcome := SessionOutcomes(s)[KeyOf(r.answer.value.offers[i])];
               d.provider == r.answer.value.offers[i].provider && d.sourceId == r.answer.value.offers[i].upstreamModelId
               && d.identityId == outcome.identityId && d.how == outcome.how
               && d.snapshotId == Some(s.snapshotIds[n]) && d.reviewer == None && d.supersededAt == None
               && (d.how == "approved_alias" ==> d.confidence == 1.0)
               && (d.how == "provider_canonical_id" ==> d.confidence == 0.98)
               && (d.how == "exact_fingerprint" ==> d.confidence == 0.95)
               && (d.how == "provisional" ==> d.confidence == 0.4)
  {
    OutcomesCoverRequests(s.requests, Answers(s), n);
    var snapshot := SessionSnapshot(s, n);
    i := DecisionIsOfOffer(snapshot.offers, s.snapshotIds[n], SessionOutcomes(s), s.latest, s.stamp.completedAt, k);
    assert snapshot.offers[i].provider == s.requests[n].answer.value.offers[i].provider;
  }

  lemma {:induction false} DecisionIsOfOffer(
    offers: seq<Offer>, snapshotId: string, outcomes: Outcomes, latest: Latest, completedAt: real, k: nat) returns (i: nat)
    requires CoversOffers(outcomes, offers) && k < |DecisionsFor(offers, snapshotId, outcomes, latest, completedAt)|
    ensures i < |offers|
    ensures DecisionsFor(offers, snapshotId, outcomes, latest, completedAt)[k]
         == DecisionFor(offers[i], snapshotId, outcomes, latest, completedAt)
  {
    var front := offers[..|offers| - 1];
    if k < |DecisionsFor(front, snapshotId, outcomes, latest, completedAt)| {
      i := DecisionIsOfOffer(front, snapshotId, outcomes, latest, completedAt, k);
    } else {
      i := |offers| - 1;
    }
  }

  lemma {:induction false} WritesKeepReviewers(
    known: set<IdentityId>, rows: seq<AliasRow>, decisions: seq<AliasDecision>, actor: Actor, k: nat)
    requires AfterWrites(known, rows, decisions, actor).Some? && k < |AfterWrites(known, rows, decisions, actor).value|
    requires actor.actorId != "" && forall i :: 0 <= i < |decisions| ==> decisions[i].reviewer == None
    ensures var after := AfterWrites(known, rows, decisions, actor).value;
            |after| == |rows| + |decisions|
            && if k < |rows|
               then after[k].decision.reviewer == rows[k].decision.reviewer && after[k].reviewerOrgId == rows[k].reviewerOrgId
               else after[k].decision.reviewer == Some(actor.actorId) && after[k].reviewerOrgId == actor.orgId
    decreases |decisions|
  {
    if decisions != [] {
      var written := Written(rows, decisions[0], actor);
      assert |written| == |rows| + 1 && written[|rows|].decision.reviewer == Some(actor.actorId)
          && written[|rows|].reviewerOrgId == actor.orgId;
      WritesKeepReviewers(known, Written(rows, decisions[0], actor), decisions[1..], actor, k);
    }
  }

  /** The rows a refresh adds name the inventory itself as their reviewer, and no organisation. */
  lemma RefreshIsTheReviewer(t: Tables, s: Session, n: nat, k: nat)
    requires WellSized(s) && n < |s.requests| && TransactionTook(t, s, n + 1)
    requires |t.aliases| <= k < |Executed(t, s, n + 1).aliases|
    ensures Executed(t, s, n + 1).aliases[k].decision.reviewer == Some("benchmark-inventory")
    ensures Executed(t, s, n + 1).aliases[k].reviewerOrgId == None
  {
    CommitStep(t, s, n);
    forall i | 0 <= i < |SessionDecisions(s, n)| ensures SessionDecisions(s, n)[i].reviewer == None {
      var j := RecordedDecision(s, n, i);
    }
    WritesKeepReviewers(t.identities.Keys, t.aliases, SessionDecisions(s, n), INVENTORY_ACTOR, k);
  }

  /** A decision by hand is the newest row, and names its reviewer: the one it came with, or else whoever made it. */
  lemma ReplacedNamesItsReviewer(t: Tables, decision: AliasDecision, actor: Actor)
    requires TakesEffect(t, Replace(decision, actor))
    ensures var rows := After(t, Replace(decision, actor)).aliases;
            |rows| == |t.aliases| + 1
            && var row := rows[|rows| - 1];
               row.reviewerOrgId == actor.orgId
               && row.decision == decision.(reviewer := row.decision.reviewer)
               && (decision.reviewer == None || decision.reviewer == Some("") ==> row.decision.reviewer == Some(actor.actorId))
               && (decision.reviewer != None && decision.reviewer != Some("") ==> row.decision.reviewer == decision.reviewer)
  {
    assert [decision][1..] == [];
    assert AfterWrites(t.identities.Keys, t.aliases, [decision], actor) == Some(Written(t.aliases, decision, actor));
  }

  // ----- Over all runs -----

  /** What is stored of a refresh is consistent, in every reachable state. */
  lemma StoredSnapshotsAreConsistent(run: seq<Event>, k: nat, s: Snapshot)
    requires k <= |run| && s in StateAt(run, k).snapshots
    ensures s.startedAt <= s.completedAt <= s.expiresAt
    ensures s.status == Success ==> s.paginationComplete
    ensures s.status == Failure ==> s.offers == []
    ensures s.status != Stale
    ensures forall o :: o in s.offers ==> o.provider == s.provider && o.scope == s.scope && o.adapterRevision == s.adapterRevision
    ensures forall i, j :: 0 <= i < j < |s.offers| ==> s.offers[i].upstreamModelId != s.offers[j].upstreamModelId
  {
    SnapshotsAreAppendOnly(run, k, k);
    OffersAreListedOnce(run, k);
  }

  lemma {:induction false} OffersAreListedOnce(run: seq<Event>, k: nat)
    requires k <= |run|
    ensures forall s, i, j :: s in StateAt(run, k).snapshots && 0 <= i < j < |s.offers| ==>
              s.offers[i].upstreamModelId != s.offers[j].upstreamModelId || s.offers[i].provider != s.offers[j].provider
  {
    if k > 0 {
      OffersAreListedOnce(run, k - 1);
    }
  }

  /** What a snapshot must be to be stored, in its own fields and those of the ones there are. */
  ghost predicate Storable(s: Snapshot, snapshots: seq<Snapshot>) {
    s.startedAt <= s.completedAt <= s.expiresAt && (s.status == Success ==> s.paginationComplete)
    && (s.status == Failure ==> s.offers == []) && s.status != Stale
    && (forall o :: o in s.offers ==> o.provider == s.provider && o.scope == s.scope && o.adapterRevision == s.adapterRevision)
    && (forall i, j :: 0 <= i < j < |s.offers| ==> s.offers[i].upstreamModelId != s.offers[j].upstreamModelId)
    && forall other :: other in snapshots ==> other.snapshotId != s.snapshotId
  }

  /** Without decisions and without a fence a snapshot is stored exactly when it is consistent and new. */
  lemma StoredIffStorable(t: Tables, s: Snapshot, actor: Actor)
    ensures TakesEffect(t, Commit(s, [], actor, None)) <==> Storable(s, t.snapshots)
  {
    assert forall o :: o in s.offers ==> exists i :: 0 <= i < |s.offers| && s.offers[i] == o;
    assert forall other :: other in t.snapshots ==> exists i :: 0 <= i < |t.snapshots| && t.snapshots[i] == other;
    assert forall i :: 0 <= i < |s.offers| ==> s.offers[i] in s.offers;
    assert forall i :: 0 <= i < |t.snapshots| ==> t.snapshots[i] in t.snapshots;
  }

  /** Every decision of a commit that takes effect cites its snapshot, which lists an offer it was made for. */
  lemma CommitsHaveEvidence(t: Tables, e: Event, d: AliasDecision)
    requires e.Commit? && TakesEffect(t, e) && d in e.decisions
    ensures d.supersededAt == None && d.snapshotId == Some(e.snapshot.snapshotId)
    ensures exists o :: o in e.snapshot.offers && o.provider == d.provider && o.upstreamModelId == d.sourceId
              && o.identityId == d.identityId
    ensures e.snapshot in After(t, e).snapshots
  {
    var i :| 0 <= i < |e.decisions| && e.decisions[i] == d;
    assert Supported(e.decisions[i], e.snapshot);
    var j :| 0 <= j < |e.snapshot.offers| && e.snapshot.offers[j].provider == d.provider
             && e.snapshot.offers[j].upstreamModelId == d.sourceId && e.snapshot.offers[j].identityId == d.identityId;
    assert e.snapshot.offers[j] in e.snapshot.offers;
  }
}
