/**
 * The in-memory routing index of the platform: hydrated once, then kept up to date partition by
 * partition with an optimistic read, fetch and reread while other processes append snapshots.
 */
module CandidateIndex {
  import opened Common
  import opened Domain
  import opened InventoryTables
  import opened SnapshotRevisions

  predicate IsRecorded(revisions: Revisions, s: Snapshot) {
    PartitionOf(s) in revisions && revisions[PartitionOf(s)] == s.snapshotId
  }

  /** The rows of the snapshots the revisions name. */
  function Holding(revisions: Revisions, snapshots: seq<Snapshot>): set<Candidate> {
    set s, c | s in snapshots && IsRecorded(revisions, s) && c in CandidatesOf(s) :: c
  }

  /** Every recorded revision names a complete snapshot of its own partition. */
  ghost predicate Names(revisions: Revisions, snapshots: seq<Snapshot>) {
    forall p :: p in revisions ==>
      exists s :: s in snapshots && Eligible(s, p) && s.snapshotId == revisions[p]
  }

  ghost predicate Consistent(catalog: set<Candidate>, revisions: Revisions, snapshots: seq<Snapshot>) {
    Names(revisions, snapshots) && catalog == Holding(revisions, snapshots)
  }

  function InPartitions(catalog: set<Candidate>, partitions: set<Partition>): set<Candidate> {
    set c | c in catalog && CandidatePartition(c) in partitions
  }

  function OutsidePartitions(catalog: set<Candidate>, partitions: set<Partition>): set<Candidate> {
    set c | c in catalog && CandidatePartition(c) !in partitions
  }

  function Changed(was: Revisions, now: Revisions): set<Partition> {
    set p | p in now && (p !in was || was[p] != now[p])
  }

  ghost predicate Agreeing(candidates: set<Candidate>) {
    forall a, b :: a in candidates && b in candidates ==>
      CandidatePartition(a) == CandidatePartition(b) ==> a.snapshotId == b.snapshotId
  }

  ghost predicate Records(revisions: Revisions, candidates: set<Candidate>) {
    (forall c :: c in candidates ==> IsRecordedFor(revisions, c))
    && forall p :: p in revisions ==> exists c :: c in candidates && CandidatePartition(c) == p
  }

  predicate IsRecordedFor(revisions: Revisions, c: Candidate) {
    CandidatePartition(c) in revisions && revisions[CandidatePartition(c)] == c.snapshotId
  }

  method RecordRevisions(candidates: set<Candidate>) returns (revisions: Revisions)
    requires Agreeing(candidates)
    ensures Records(revisions, candidates)
  {
    revisions := map[];
    var rest := candidates;
    while rest != {}
      invariant rest <= candidates
      invariant forall c :: c in candidates - rest ==> IsRecordedFor(revisions, c)
      invariant forall p :: p in revisions ==> exists c :: c in candidates && CandidatePartition(c) == p
      decreases rest
    {
      var c :| c in rest;
      forall d | d in candidates - (rest - {c})
        ensures IsRecordedFor(revisions[CandidatePartition(c) := c.snapshotId], d)
      {
        assert d == c || IsRecordedFor(revisions, d);
      }
      revisions := revisions[CandidatePartition(c) := c.snapshotId];
      rest := rest - {c};
    }
  }

  // ----- What the queries and the index have to do with each other -----

  lemma RowsKnowTheirSnapshot(s: Snapshot, c: Candidate)
    requires ValidInventory(s) && c in CandidatesOf(s)
    ensures CandidatePartition(c) == PartitionOf(s) && c.snapshotId == s.snapshotId
  {
  }

  lemma LatestIsNamed(snapshots: seq<Snapshot>, now: real)
    ensures Names(LatestRevisions(snapshots, now), snapshots)
  {
  }

  lemma RecordedIsLatest(snapshots: seq<Snapshot>, now: real, s: Snapshot)
    requires Sound(snapshots) && s in snapshots
    ensures IsRecorded(LatestRevisions(snapshots, now), s)
        <==> Routable(snapshots, PartitionOf(s), now) && Latest(snapshots, PartitionOf(s)).value == s
  {
    var p := PartitionOf(s);
    if Routable(snapshots, p, now) && Latest(snapshots, p).value.snapshotId == s.snapshotId {
      SameIdSameSnapshot(snapshots, s, Latest(snapshots, p).value);
    }
  }

  /** A full load is what the latest fresh revisions hold. */
  lemma FullLoadIsHolding(snapshots: seq<Snapshot>, now: real)
    requires Sound(snapshots)
    ensures AllCandidates(snapshots, now) == Holding(LatestRevisions(snapshots, now), snapshots)
  {
  }

  lemma LoadAgrees(snapshots: seq<Snapshot>, now: real)
    requires Sound(snapshots)
    ensures Agreeing(AllCandidates(snapshots, now))
  {
  }

  /** Hydration starts the index off consistent, although it never records a partition without offers. */
  lemma HydrationIsConsistent(snapshots: seq<Snapshot>, now: real, revisions: Revisions)
    requires Sound(snapshots) && Records(revisions, AllCandidates(snapshots, now))
    ensures Consistent(AllCandidates(snapshots, now), revisions, snapshots)
  {
  }

  /** Other processes appending snapshots cannot make a consistent index inconsistent. */
  lemma ConsistencySurvivesAppends(catalog: set<Candidate>, revisions: Revisions, earlier: seq<Snapshot>, later: seq<Snapshot>)
    requires Sound(later) && earlier <= later && Consistent(catalog, revisions, earlier)
    ensures Consistent(catalog, revisions, later)
  {
  }

  lemma SameRevisionSameLatest(first: seq<Snapshot>, last: seq<Snapshot>, now: real, later: real, p: Partition)
    requires Sound(last) && first <= last
    requires p in LatestRevisions(first, now)
    requires LatestRevisions(last, later) == LatestRevisions(first, now)
    ensures Latest(last, p) == Latest(first, p)
  {
    LatestOnlyGrows(first, last, p);
    var s, t := Latest(first, p).value, Latest(last, p).value;
    assert LatestRevisions(last, later)[p] == t.snapshotId;
    var i :| 0 <= i < |first| && first[i] == s;
    assert last[i] == s;
    SameIdSameSnapshot(last, s, t);
  }

  /**
   * The optimistic check at work: when the reread lists the same revisions as the first read, what was
   * fetched in between is exactly what those revisions hold, however many commits happened meanwhile.
   */
  lemma ConfirmedFetchIsExact(
    listed: seq<Snapshot>, fetched: seq<Snapshot>, confirmed: seq<Snapshot>, now: real, later: real, scopes: set<Partition>)
    requires Sound(confirmed) && listed <= fetched <= confirmed
    requires LatestRevisions(confirmed, later) == LatestRevisions(listed, now)
    requires scopes <= LatestRevisions(listed, now).Keys
    ensures CandidatesFor(fetched, scopes, now)
         == InPartitions(Holding(LatestRevisions(confirmed, later), confirmed), scopes)
  {
    var revisions := LatestRevisions(confirmed, later);
    forall p | p in scopes
      ensures Latest(fetched, p) == Latest(confirmed, p) && Routable(fetched, p, now) && Routable(confirmed, p, later)
    {
      SameRevisionSameLatest(listed, confirmed, now, later, p);
      LatestHasNoABA(listed, fetched, confirmed, p);
    }
    forall c ensures c in CandidatesFor(fetched, scopes, now) <==> c in InPartitions(Holding(revisions, confirmed), scopes) {
      if c in CandidatesFor(fetched, scopes, now) {
        var p :| p in scopes && Routable(fetched, p, now) && c in CandidatesOf(Latest(fetched, p).value);
        RecordedIsLatest(confirmed, later, Latest(confirmed, p).value);
        RowsKnowTheirSnapshot(Latest(confirmed, p).value, c);
      }
      if c in InPartitions(Holding(revisions, confirmed), scopes) {
        var s :| s in confirmed && IsRecorded(revisions, s) && c in CandidatesOf(s);
        RecordedIsLatest(confirmed, later, s);
        RowsKnowTheirSnapshot(s, c);
      }
    }
  }

  /** Replacing the changed and removed partitions turns one holding into the other. */
  lemma ReplacementIsHolding(was: Revisions, now: Revisions, snapshots: seq<Snapshot>, scopes: set<Partition>)
    requires Sound(snapshots) && scopes == Changed(was, now) + (was.Keys - now.Keys)
    ensures OutsidePartitions(Holding(was, snapshots), scopes)
            + InPartitions(Holding(now, snapshots), Changed(was, now))
         == Holding(now, snapshots)
  {
  }

  // ----- The index -----

  /** What one pass of the loop sees: its clock readings, the table at each read, and who overtook it. */
  datatype Pass = Pass(
    now: real, confirmedAt: real, listed: seq<Snapshot>, fetched: seq<Snapshot>, confirmed: seq<Snapshot>,
    overtakenEarly: bool, overtakenLate: bool)

  ghost predicate Growing(before: seq<Snapshot>, pass: Pass) {
    before <= pass.listed <= pass.fetched <= pass.confirmed && Sound(pass.confirmed)
  }

  datatype Outcome = Published | UpToDate | Overtaken | Unsettled

  ghost predicate Loaded(catalog: set<Candidate>, revisions: Revisions, pass: Pass) {
    catalog == AllCandidates(pass.confirmed, pass.confirmedAt)
    && revisions == LatestRevisions(pass.confirmed, pass.confirmedAt)
  }

  ghost predicate Disturbed(pass: Pass) {
    LatestRevisions(pass.listed, pass.now) != LatestRevisions(pass.confirmed, pass.confirmedAt)
  }

  lemma StillConsistent(
    catalog: set<Candidate>, revisions: Revisions, seen: seq<Snapshot>, pass: Pass)
    requires Consistent(catalog, revisions, seen) && Growing(seen, pass)
    ensures Consistent(catalog, revisions, pass.listed) && Consistent(catalog, revisions, pass.confirmed)
    ensures Sound(pass.listed)
  {
    SoundPrefix(pass.listed, pass.confirmed);
    ConsistencySurvivesAppends(catalog, revisions, seen, pass.listed);
    ConsistencySurvivesAppends(catalog, revisions, seen, pass.confirmed);
  }

  lemma NothingChanged(was: Revisions, now: Revisions)
    requires Changed(was, now) == {} && was.Keys - now.Keys == {}
    ensures was == now
  {
    forall p | p in now ensures p in was && was[p] == now[p] {
      assert p !in Changed(was, now);
    }
    forall p | p in was ensures p in now {
      assert p !in was.Keys - now.Keys;
    }
  }

  /** An index with nothing to change already holds a full load of what the pass first read. */
  lemma UpToDateIsLoaded(catalog: set<Candidate>, revisions: Revisions, seen: seq<Snapshot>, pass: Pass)
    requires Consistent(catalog, revisions, seen) && Growing(seen, pass)
    requires revisions == LatestRevisions(pass.listed, pass.now)
    ensures catalog == AllCandidates(pass.listed, pass.now)
    ensures !Disturbed(pass) ==> Loaded(catalog, revisions, pass)
  {
    StillConsistent(catalog, revisions, seen, pass);
    FullLoadIsHolding(pass.listed, pass.now);
    FullLoadIsHolding(pass.confirmed, pass.confirmedAt);
  }

  /** A confirmed pass leaves the index equal to a full load at the confirming read. */
  lemma ConfirmedPassLoads(
    catalog: set<Candidate>, revisions: Revisions, seen: seq<Snapshot>, pass: Pass, changed: set<Partition>,
    removed: set<Partition>)
    requires Consistent(catalog, revisions, seen) && Growing(seen, pass) && !Disturbed(pass)
    requires changed == Changed(revisions, LatestRevisions(pass.listed, pass.now))
    requires removed == revisions.Keys - LatestRevisions(pass.listed, pass.now).Keys
    ensures Loaded(OutsidePartitions(catalog, changed + removed) + CandidatesFor(pass.fetched, changed, pass.now),
                   LatestRevisions(pass.listed, pass.now), pass)
    ensures Consistent(AllCandidates(pass.confirmed, pass.confirmedAt),
                       LatestRevisions(pass.confirmed, pass.confirmedAt), pass.confirmed)
  {
    StillConsistent(catalog, revisions, seen, pass);
    ConfirmedFetchIsExact(pass.listed, pass.fetched, pass.confirmed, pass.now, pass.confirmedAt, changed);
    ReplacementIsHolding(revisions, LatestRevisions(pass.listed, pass.now), pass.confirmed, changed + removed);
    FullLoadIsHolding(pass.confirmed, pass.confirmedAt);
    LatestIsNamed(pass.confirmed, pass.confirmedAt);
  }

  /** The catalog lists the offers of the newest unexpired snapshots, and nothing else. */
  ghost predicate ListsNewest(catalog: set<Candidate>, snapshots: seq<Snapshot>, now: real) {
    forall c :: c in catalog <==> IsRouted(c, snapshots, now)
  }

  lemma FullLoadListsNewest(snapshots: seq<Snapshot>, now: real)
    requires Sound(snapshots)
    ensures ListsNewest(AllCandidates(snapshots, now), snapshots, now)
  {
    forall c ensures c in AllCandidates(snapshots, now) <==> IsRouted(c, snapshots, now) {
      FullLoadIsNewest(snapshots, now, c);
    }
  }

  class RoutingIndex {
    var generation: nat
    var catalog: set<Candidate>
    var revisions: Revisions

    constructor ()
      ensures Consistent(catalog, revisions, []) && catalog == {} && revisions == map[]
    {
      generation, catalog, revisions := 0, {}, map[];
    }

    /** `overtaken`: another hydration or synchronisation began while this one awaited its query. */
    method Hydrate(snapshots: seq<Snapshot>, now: real, overtaken: bool, ghost before: seq<Snapshot>)
      requires Consistent(catalog, revisions, before) && before <= snapshots && Sound(snapshots)
      modifies this
      ensures Consistent(catalog, revisions, snapshots)
      ensures !overtaken ==> catalog == AllCandidates(snapshots, now) && ListsNewest(catalog, snapshots, now)
      ensures overtaken ==> catalog == old(catalog) && revisions == old(revisions)
    {
      generation := generation + 1;
      var candidates := AllCandidates(snapshots, now);
      if overtaken {
        ConsistencySurvivesAppends(catalog, revisions, before, snapshots);
        return;
      }
      LoadAgrees(snapshots, now);
      var recorded := RecordRevisions(candidates);
      HydrationIsConsistent(snapshots, now, recorded);
      catalog, revisions := candidates, recorded;
      FullLoadListsNewest(snapshots, now);
    }

    /** One turn of the loop: list the revisions, fetch what changed, list again, publish if they agree. */
    method RunPass(pass: Pass, ghost seen: seq<Snapshot>) returns (outcome: Outcome)
      requires Consistent(catalog, revisions, seen) && Growing(seen, pass)
      modifies this`catalog, this`revisions
      ensures Consistent(catalog, revisions, pass.confirmed)
      ensures outcome.Published? ==> Loaded(catalog, revisions, pass)
      ensures outcome.UpToDate? ==> catalog == AllCandidates(pass.listed, pass.now)
      ensures outcome.UpToDate? && !Disturbed(pass) ==> Loaded(catalog, revisions, pass)
      ensures !outcome.Published? ==> catalog == old(catalog) && revisions == old(revisions)
      ensures outcome.Overtaken? ==> pass.overtakenEarly || pass.overtakenLate
      ensures outcome.Unsettled? ==> Disturbed(pass)
    {
      StillConsistent(catalog, revisions, seen, pass);
      var listed := LatestRevisions(pass.listed, pass.now);
      if pass.overtakenEarly {
        return Overtaken;
      }
      var changed := Changed(revisions, listed);
      var removed := revisions.Keys - listed.Keys;
      if changed == {} && removed == {} {
        NothingChanged(revisions, listed);
        UpToDateIsLoaded(catalog, revisions, seen, pass);
        return UpToDate;
      }
      var fetched := CandidatesFor(pass.fetched, changed, pass.now);
      var confirmed := LatestRevisions(pass.confirmed, pass.confirmedAt);
      if confirmed != listed {
        return Unsettled;
      }
      var replaced := OutsidePartitions(catalog, changed + removed) + fetched;
      if pass.overtakenLate {
        return Overtaken;
      }
      ConfirmedPassLoads(catalog, revisions, seen, pass, changed, removed);
      catalog := replaced;
      revisions := listed;
      return Published;
    }

    /**
     * `_sync_candidate_partitions`, at most two passes. Whenever it publishes, catalog and revisions are
     * those of a full load at a confirming read; when it finds nothing to do the catalog already equalled
     * a full load; otherwise it changes nothing. A quiet first pass always ends at a full load.
     */
    method Sync(passes: seq<Pass>, ghost before: seq<Snapshot>) returns (published: bool, outcome: Outcome)
      requires |passes| == 2
      requires Consistent(catalog, revisions, before) && Growing(before, passes[0])
      requires Growing(passes[0].confirmed, passes[1])
      modifies this
      ensures Consistent(catalog, revisions, passes[1].confirmed)
      ensures published <==> outcome.Published?
      ensures published ==> Loaded(catalog, revisions, passes[0]) || Loaded(catalog, revisions, passes[1])
      ensures published ==> ListsNewest(catalog, passes[0].confirmed, passes[0].confirmedAt)
                            || ListsNewest(catalog, passes[1].confirmed, passes[1].confirmedAt)
      ensures !published ==> catalog == old(catalog) && revisions == old(revisions)
      ensures outcome.UpToDate? ==> catalog == AllCandidates(passes[0].listed, passes[0].now)
                                    || catalog == AllCandidates(passes[1].listed, passes[1].now)
      ensures outcome.Unsettled? ==> Disturbed(passes[0]) && Disturbed(passes[1])
      ensures outcome.Overtaken? ==> exists k :: 0 <= k < 2 && (passes[k].overtakenEarly || passes[k].overtakenLate)
      ensures !Disturbed(passes[0]) && !passes[0].overtakenEarly && !passes[0].overtakenLate ==>
                Loaded(catalog, revisions, passes[0])
    {
      generation := generation + 1;
      outcome := RunPass(passes[0], before);
      if outcome.Unsettled? {
        outcome := RunPass(passes[1], passes[0].confirmed);
      } else {
        ConsistencySurvivesAppends(catalog, revisions, passes[0].confirmed, passes[1].confirmed);
      }
      published := outcome.Published?;
      FullLoadListsNewest(passes[0].confirmed, passes[0].confirmedAt);
      FullLoadListsNewest(passes[1].confirmed, passes[1].confirmedAt);
    }
  }
}
