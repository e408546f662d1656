/**
 * The routing queries over the append-only snapshots: the latest complete snapshot of every
 * provider and scope, and the fact that "latest" can only move forward.
 */
module SnapshotRevisions {
  import opened Common
  import opened Domain
  import opened InventoryTables
  import opened LedgerRuns

  datatype Partition = Partition(provider: string, scope: Scope)

  /** One row a routing query returns: an offer and the snapshot it was selected from. */
  datatype Candidate = Candidate(snapshotId: string, completedAt: real, expiresAt: real, offer: Offer)

  function PartitionOf(s: Snapshot): Partition {
    Partition(s.provider, s.scope)
  }

  function CandidatePartition(c: Candidate): Partition {
    Partition(c.offer.provider, c.offer.scope)
  }

  predicate Eligible(s: Snapshot, p: Partition) {
    s.status.Success? && s.paginationComplete && PartitionOf(s) == p
  }

  /** `ORDER BY completed_at DESC, snapshot_id DESC`. */
  predicate Outranks(a: Snapshot, b: Snapshot) {
    a.completedAt > b.completedAt || (a.completedAt == b.completedAt && Less(b.snapshotId, a.snapshotId))
  }

  /** The row of rank one. The rank is taken before freshness is looked at. */
  function Latest(snapshots: seq<Snapshot>, p: Partition): (latest: Option<Snapshot>)
    ensures latest.Some? ==> latest.value in snapshots && Eligible(latest.value, p)
  {
    if snapshots == [] then None
    else
      var before, last := Latest(snapshots[..|snapshots| - 1], p), snapshots[|snapshots| - 1];
      if Eligible(last, p) && (before.None? || Outranks(last, before.value)) then Some(last) else before
  }

  predicate Routable(snapshots: seq<Snapshot>, p: Partition, now: real) {
    var latest := Latest(snapshots, p);
    latest.Some? && latest.value.expiresAt > now
  }

  function Partitions(snapshots: seq<Snapshot>): set<Partition> {
    set s | s in snapshots :: PartitionOf(s)
  }

  function CandidatesOf(s: Snapshot): set<Candidate> {
    set i | 0 <= i < |s.offers| :: Candidate(s.snapshotId, s.completedAt, s.expiresAt, s.offers[i])
  }

  type Revisions = map<Partition, string>

  function LatestRevisions(snapshots: seq<Snapshot>, now: real): Revisions {
    map p | p in Partitions(snapshots) && Routable(snapshots, p, now) :: Latest(snapshots, p).value.snapshotId
  }

  function CandidatesFor(snapshots: seq<Snapshot>, scopes: set<Partition>, now: real): set<Candidate> {
    set p, c | p in scopes && Routable(snapshots, p, now) && c in CandidatesOf(Latest(snapshots, p).value) :: c
  }

  function AllCandidates(snapshots: seq<Snapshot>, now: real): set<Candidate> {
    CandidatesFor(snapshots, Partitions(snapshots), now)
  }

  /** What every commit keeps of the snapshot table. */
  ghost predicate Sound(snapshots: seq<Snapshot>) {
    (forall i :: 0 <= i < |snapshots| ==> ValidInventory(snapshots[i]))
    && forall i, j :: 0 <= i < j < |snapshots| ==> snapshots[i].snapshotId != snapshots[j].snapshotId
  }

  lemma SameIdSameSnapshot(snapshots: seq<Snapshot>, s: Snapshot, t: Snapshot)
    requires Sound(snapshots) && s in snapshots && t in snapshots && s.snapshotId == t.snapshotId
    ensures s == t
  {
  }

  lemma OutranksTransitive(a: Snapshot, b: Snapshot, c: Snapshot)
    requires Outranks(a, b) && Outranks(b, c)
    ensures Outranks(a, c)
  {
    if a.completedAt == b.completedAt == c.completedAt {
      LessTransitive(c.snapshotId, b.snapshotId, a.snapshotId);
    }
  }

  lemma OutranksAsymmetric(a: Snapshot, b: Snapshot)
    requires Outranks(a, b)
    ensures !Outranks(b, a)
  {
    if a.completedAt == b.completedAt {
      LessAsymmetric(b.snapshotId, a.snapshotId);
    }
  }

  /** Rank one means maximal: no eligible snapshot outranks it, and it exists when any is eligible. */
  lemma {:induction false} LatestIsMaximal(snapshots: seq<Snapshot>, p: Partition, s: Snapshot)
    requires s in snapshots && Eligible(s, p)
    ensures Latest(snapshots, p).Some? && !Outranks(s, Latest(snapshots, p).value)
  {
    var front, last := snapshots[..|snapshots| - 1], snapshots[|snapshots| - 1];
    LessIrreflexive(last.snapshotId);
    if s in front {
      LatestIsMaximal(front, p, s);
      var before := Latest(front, p).value;
      if Eligible(last, p) && Outranks(last, before) && Outranks(s, last) {
        OutranksTransitive(s, last, before);
      }
    }
  }

  /** Whether a snapshot could be the one a partition is routed by: a success that saw every page. */
  ghost predicate Counts(s: Snapshot, provider: string, scope: Scope) {
    s.status == Success && s.paginationComplete && s.provider == provider && s.scope == scope
  }

  /** No snapshot that counts completed later, nor at the same time under a greater id. */
  ghost predicate IsNewest(s: Snapshot, snapshots: seq<Snapshot>) {
    s in snapshots && Counts(s, s.provider, s.scope)
    && forall t :: t in snapshots && Counts(t, s.provider, s.scope) ==>
         t.completedAt < s.completedAt
         || (t.completedAt == s.completedAt && (t.snapshotId == s.snapshotId || Less(t.snapshotId, s.snapshotId)))
  }

  /** The latest snapshot is the newest by completion time, then by id. */
  lemma LatestIsNewest(snapshots: seq<Snapshot>, p: Partition)
    ensures Latest(snapshots, p).Some? ==> IsNewest(Latest(snapshots, p).value, snapshots)
    ensures Latest(snapshots, p).Some? ==>
              Latest(snapshots, p).value.provider == p.provider && Latest(snapshots, p).value.scope == p.scope
    ensures forall t :: t in snapshots && Counts(t, p.provider, p.scope) ==> Latest(snapshots, p).Some?
  {
    forall t | t in snapshots && Counts(t, p.provider, p.scope)
      ensures Latest(snapshots, p).Some? && !Outranks(t, Latest(snapshots, p).value)
    {
      LatestIsMaximal(snapshots, p, t);
    }
    if Latest(snapshots, p).Some? {
      var s := Latest(snapshots, p).value;
      forall t | t in snapshots && Counts(t, p.provider, p.scope)
        ensures t.completedAt < s.completedAt
                || (t.completedAt == s.completedAt && (t.snapshotId == s.snapshotId || Less(t.snapshotId, s.snapshotId)))
      {
        LessTotal(t.snapshotId, s.snapshotId);
      }
    }
  }

  lemma NewestIsLatest(snapshots: seq<Snapshot>, s: Snapshot)
    requires Sound(snapshots) && IsNewest(s, snapshots)
    ensures Latest(snapshots, PartitionOf(s)) == Some(s)
  {
    var p := PartitionOf(s);
    LatestIsNewest(snapshots, p);
    var l := Latest(snapshots, p).value;
    if l.snapshotId == s.snapshotId {
      SameIdSameSnapshot(snapshots, s, l);
    } else {
      LessAsymmetric(if Less(l.snapshotId, s.snapshotId) then l.snapshotId else s.snapshotId,
                     if Less(l.snapshotId, s.snapshotId) then s.snapshotId else l.snapshotId);
    }
  }

  /** A snapshot that counts and completed after all before it takes its partition over when it is appended. */
  lemma LaterSnapshotTakesOver(snapshots: seq<Snapshot>, s: Snapshot)
    requires Counts(s, s.provider, s.scope)
    requires forall t :: t in snapshots && Counts(t, s.provider, s.scope) ==> t.completedAt < s.completedAt
    ensures Latest(snapshots + [s], PartitionOf(s)) == Some(s)
  {
    var p := PartitionOf(s);
    assert (snapshots + [s])[..|snapshots|] == snapshots;
    LatestIsNewest(snapshots, p);
  }

  /** The rows of a routing query: the offers of the newest snapshots that have not expired. */
  ghost predicate IsRouted(c: Candidate, snapshots: seq<Snapshot>, now: real) {
    exists s, i :: IsRow(c, s, i) && IsNewest(s, snapshots) && now < s.expiresAt
  }

  ghost predicate IsRow(c: Candidate, s: Snapshot, i: nat) {
    i < |s.offers| && c.offer == s.offers[i]
    && c.snapshotId == s.snapshotId && c.completedAt == s.completedAt && c.expiresAt == s.expiresAt
  }

  /** A full load is the offers of the newest unexpired snapshots, and nothing else. */
  lemma FullLoadIsNewest(snapshots: seq<Snapshot>, now: real, c: Candidate)
    requires Sound(snapshots)
    ensures c in AllCandidates(snapshots, now) <==> IsRouted(c, snapshots, now)
  {
    if c in AllCandidates(snapshots, now) {
      var p :| p in Partitions(snapshots) && Routable(snapshots, p, now) && c in CandidatesOf(Latest(snapshots, p).value);
      var s := Latest(snapshots, p).value;
      LatestIsNewest(snapshots, p);
      var i: nat :| i < |s.offers| && c == Candidate(s.snapshotId, s.completedAt, s.expiresAt, s.offers[i]);
      assert IsRow(c, s, i);
    }
    if IsRouted(c, snapshots, now) {
      var s, i :| IsRow(c, s, i) && IsNewest(s, snapshots) && now < s.expiresAt;
      NewestIsLatest(snapshots, s);
      assert PartitionOf(s) in Partitions(snapshots) && c in CandidatesOf(s);
    }
  }

  /** The rows of a full load are told apart by their partition. */
  lemma RowsOfPartition(snapshots: seq<Snapshot>, now: real, c: Candidate)
    requires Sound(snapshots)
    ensures c in AllCandidates(snapshots, now) <==>
            Routable(snapshots, CandidatePartition(c), now)
            && c in CandidatesOf(Latest(snapshots, CandidatePartition(c)).value)
  {
    var p := CandidatePartition(c);
    if c in AllCandidates(snapshots, now) {
      var q :| q in Partitions(snapshots) && Routable(snapshots, q, now) && c in CandidatesOf(Latest(snapshots, q).value);
      assert ValidInventory(Latest(snapshots, q).value) && q == p;
    }
    if Routable(snapshots, p, now) && c in CandidatesOf(Latest(snapshots, p).value) {
      assert p in Partitions(snapshots);
    }
  }

  /** A snapshot that does not count leaves every row where it was. */
  lemma UnfitSnapshotStaysOut(snapshots: seq<Snapshot>, s: Snapshot, now: real, c: Candidate)
    requires Sound(snapshots + [s]) && !Counts(s, s.provider, s.scope)
    ensures c in AllCandidates(snapshots + [s], now) <==> c in AllCandidates(snapshots, now)
  {
    assert (snapshots + [s])[..|snapshots|] == snapshots;
    SoundPrefix(snapshots, snapshots + [s]);
    RowsOfPartition(snapshots + [s], now, c);
    RowsOfPartition(snapshots, now, c);
  }

  /** Appending snapshots never brings back a lower-ranked "latest". */
  lemma {:induction false} LatestOnlyGrows(earlier: seq<Snapshot>, later: seq<Snapshot>, p: Partition)
    requires earlier <= later && Latest(earlier, p).Some?
    ensures Latest(later, p).Some?
    ensures Latest(later, p) == Latest(earlier, p) || Outranks(Latest(later, p).value, Latest(earlier, p).value)
    decreases |later|
  {
    if |earlier| < |later| {
      var front, last := later[..|later| - 1], later[|later| - 1];
      LatestOnlyGrows(earlier, front, p);
      var past, before := Latest(earlier, p).value, Latest(front, p).value;
      if Eligible(last, p) && Outranks(last, before) && before != past {
        OutranksTransitive(last, before, past);
      }
    } else {
      assert earlier == later;
    }
  }

  /** No A-B-A: a partition with the same latest snapshot at two moments had it at every moment between. */
  lemma LatestHasNoABA(first: seq<Snapshot>, between: seq<Snapshot>, last: seq<Snapshot>, p: Partition)
    requires first <= between <= last
    requires Latest(first, p).Some? && Latest(last, p) == Latest(first, p)
    ensures Latest(between, p) == Latest(first, p)
  {
    LatestOnlyGrows(first, between, p);
    LatestOnlyGrows(between, last, p);
    if Latest(between, p) != Latest(first, p) {
      OutranksAsymmetric(Latest(between, p).value, Latest(first, p).value);
    }
  }

  lemma SoundPrefix(earlier: seq<Snapshot>, later: seq<Snapshot>)
    requires Sound(later) && earlier <= later
    ensures Sound(earlier)
  {
  }

  lemma StepAppendsSnapshots(t: Tables, e: Event)
    requires Sound(t.snapshots)
    ensures Sound(After(t, e).snapshots) && t.snapshots <= After(t, e).snapshots
  {
  }

  /** Over every run of the store the snapshots are sound and only ever appended to. */
  lemma {:induction false} SnapshotsAreAppendOnly(run: seq<Event>, i: nat, k: nat)
    requires i <= k <= |run|
    ensures Sound(StateAt(run, k).snapshots)
    ensures StateAt(run, i).snapshots <= StateAt(run, k).snapshots
    decreases k
  {
    if k > 0 {
      if i < k {
        SnapshotsAreAppendOnly(run, i, k - 1);
      } else {
        SnapshotsAreAppendOnly(run, k - 1, k - 1);
      }
      StepAppendsSnapshots(StateAt(run, k - 1), run[k - 1]);
    }
  }
}
