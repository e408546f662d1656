/**
 * The alias history of one provider source id, over every run of the store: a gap-free timeline of
 * decisions, each closed at the instant the next was made, the last one open.
 */
module AliasTimeline {
  import opened Common
  import opened Domain
  import opened InventoryTables
  import opened LedgerRuns

  /** The history of one key, oldest row first, as inserted. */
  ghost function Timeline(rows: seq<AliasRow>, key: OfferKey): seq<AliasDecision> {
    if rows == [] then []
    else
      var last := rows[|rows| - 1].decision;
      Timeline(rows[..|rows| - 1], key) + if AliasKey(last) == key then [last] else []
  }

  ghost predicate GapFree(history: seq<AliasDecision>) {
    (forall k :: 0 <= k < |history| - 1 ==>
       history[k].decidedAt < history[k + 1].decidedAt && history[k].supersededAt == Some(history[k + 1].decidedAt))
    && (|history| > 0 ==> history[|history| - 1].supersededAt.None?)
  }

  ghost function Closed(history: seq<AliasDecision>, at: real): (closed: seq<AliasDecision>)
    ensures |closed| == |history|
  {
    seq(|history|, k requires 0 <= k < |history| =>
      if history[k].supersededAt.None? then history[k].(supersededAt := Some(at)) else history[k])
  }

  lemma {:induction false} TimelineOfAppend(rows: seq<AliasRow>, row: AliasRow, key: OfferKey)
    ensures Timeline(rows + [row], key) == Timeline(rows, key) + if AliasKey(row.decision) == key then [row.decision] else []
  {
  }

  lemma {:induction false} TimelineOfSuperseded(rows: seq<AliasRow>, written: OfferKey, at: real, key: OfferKey)
    ensures Timeline(Superseded(rows, written, at), key)
         == if key == written then Closed(Timeline(rows, key), at) else Timeline(rows, key)
  {
    if rows != [] {
      var front, last := rows[..|rows| - 1], rows[|rows| - 1];
      TimelineOfSuperseded(front, written, at, key);
      var closed := Superseded(rows, written, at);
      assert closed[..|rows| - 1] == Superseded(front, written, at);
      assert Timeline(rows, key) == Timeline(front, key) + if AliasKey(last.decision) == key then [last.decision] else [];
    }
  }

  /** The open row the order check reads is the first open entry of the key's own history. */
  ghost function FirstOpen(history: seq<AliasDecision>): Option<real> {
    if history == [] then None
    else if history[0].supersededAt.None? then Some(history[0].decidedAt)
    else FirstOpen(history[1..])
  }

  lemma {:induction false} FirstOpenOfAppend(history: seq<AliasDecision>, last: AliasDecision)
    ensures FirstOpen(history + [last])
         == if FirstOpen(history).Some? then FirstOpen(history)
            else if last.supersededAt.None? then Some(last.decidedAt) else None
  {
    if history == [] {
      assert history + [last] == [last];
    } else {
      FirstOpenOfAppend(history[1..], last);
      assert (history + [last])[1..] == history[1..] + [last];
    }
  }

  lemma {:induction false} CurrentOfAppend(rows: seq<AliasRow>, last: AliasRow, key: OfferKey)
    ensures CurrentDecision(rows + [last], key)
         == if CurrentDecision(rows, key).Some? then CurrentDecision(rows, key)
            else if Open(last, key) then Some(last.decision.decidedAt) else None
  {
    if rows == [] {
      assert rows + [last] == [last];
    } else {
      CurrentOfAppend(rows[1..], last, key);
      assert (rows + [last])[1..] == rows[1..] + [last];
    }
  }

  lemma {:induction false} CurrentIsFirstOpen(rows: seq<AliasRow>, key: OfferKey)
    ensures CurrentDecision(rows, key) == FirstOpen(Timeline(rows, key))
  {
    if rows != [] {
      var front, last := rows[..|rows| - 1], rows[|rows| - 1];
      CurrentIsFirstOpen(front, key);
      CurrentOfAppend(front, last, key);
      assert rows == front + [last];
      if AliasKey(last.decision) == key {
        FirstOpenOfAppend(Timeline(front, key), last.decision);
      } else {
        assert Timeline(front, key) + [] == Timeline(front, key);
      }
    }
  }

  lemma {:induction false} OpenIsLast(history: seq<AliasDecision>)
    requires GapFree(history)
    ensures FirstOpen(history) == if history == [] then None else Some(history[|history| - 1].decidedAt)
  {
    if |history| > 1 {
      assert history[0].supersededAt == Some(history[0 + 1].decidedAt);
      forall k | 0 <= k < |history[1..]| - 1
        ensures history[1..][k].decidedAt < history[1..][k + 1].decidedAt
        ensures history[1..][k].supersededAt == Some(history[1..][k + 1].decidedAt)
      {
        assert history[k + 1].supersededAt == Some(history[k + 1 + 1].decidedAt);
      }
      OpenIsLast(history[1..]);
    }
  }

  lemma AppendKeepsGapFree(history: seq<AliasDecision>, next: AliasDecision)
    requires GapFree(history) && next.supersededAt.None?
    requires history != [] ==> history[|history| - 1].decidedAt < next.decidedAt
    ensures GapFree(Closed(history, next.decidedAt) + [next])
  {
  }

  ghost predicate AllGapFree(rows: seq<AliasRow>) {
    forall key :: GapFree(Timeline(rows, key))
  }

  lemma WriteKeepsTimeline(known: set<IdentityId>, rows: seq<AliasRow>, decision: AliasDecision, actor: Actor)
    requires AllGapFree(rows) && CanWrite(known, rows, decision)
    ensures AllGapFree(Written(rows, decision, actor))
  {
    var row := AliasRow(Reviewed(decision, actor).(supersededAt := None), actor.orgId);
    var written := AliasKey(decision);
    var closed := Superseded(rows, written, decision.decidedAt);
    forall key ensures GapFree(Timeline(Written(rows, decision, actor), key)) {
      TimelineOfSuperseded(rows, written, decision.decidedAt, key);
      TimelineOfAppend(closed, row, key);
      if key == written {
        var history := Timeline(rows, key);
        CurrentIsFirstOpen(rows, key);
        OpenIsLast(history);
        AppendKeepsGapFree(history, row.decision);
      } else {
        assert Timeline(rows, key) + [] == Timeline(rows, key);
      }
    }
  }

  ghost predicate AllNamed(rows: seq<AliasRow>, known: set<IdentityId>) {
    forall i :: 0 <= i < |rows| ==> rows[i].decision.identityId in known
  }

  lemma {:induction false} BatchKeepsTimeline(
    known: set<IdentityId>, rows: seq<AliasRow>, decisions: seq<AliasDecision>, actor: Actor)
    requires AllGapFree(rows) && AllNamed(rows, known) && AfterWrites(known, rows, decisions, actor).Some?
    ensures AllGapFree(AfterWrites(known, rows, decisions, actor).value)
    ensures AllNamed(AfterWrites(known, rows, decisions, actor).value, known)
    decreases |decisions|
  {
    if decisions != [] {
      WriteKeepsTimeline(known, rows, decisions[0], actor);
      BatchKeepsTimeline(known, Written(rows, decisions[0], actor), decisions[1..], actor);
    }
  }

  lemma {:induction false} EnsuringOnlyAdds(identities: Identities, batch: seq<ModelIdentity>)
    requires Ensured(identities, batch).Some?
    ensures identities.Keys <= Ensured(identities, batch).value.Keys
    ensures forall id :: id in identities ==> Ensured(identities, batch).value[id] == identities[id]
    ensures forall k :: 0 <= k < |batch| ==>
              batch[k].identityId in Ensured(identities, batch).value
              && Ensured(identities, batch).value[batch[k].identityId] == batch[k]
    decreases |batch|
  {
    if batch != [] {
      var first := batch[0];
      var next := if first.identityId in identities then identities else identities[first.identityId := first];
      EnsuringOnlyAdds(next, batch[1..]);
      assert next[first.identityId] == first;
      forall k | 0 <= k < |batch|
        ensures batch[k].identityId in Ensured(identities, batch).value
        ensures Ensured(identities, batch).value[batch[k].identityId] == batch[k]
      {
        assert k > 0 ==> batch[k] == batch[1..][k - 1];
      }
    }
  }

  ghost predicate Consistent(identities: Identities, batch: seq<ModelIdentity>) {
    (forall k :: 0 <= k < |batch| && batch[k].identityId in identities ==> identities[batch[k].identityId] == batch[k])
    && forall k, l :: 0 <= k < l < |batch| && batch[k].identityId == batch[l].identityId ==> batch[k] == batch[l]
  }

  lemma {:induction false} ConsistentIsEnsured(identities: Identities, batch: seq<ModelIdentity>)
    requires Consistent(identities, batch)
    ensures Ensured(identities, batch).Some?
    decreases |batch|
  {
    if batch != [] {
      var first, rest := batch[0], batch[1..];
      assert forall k :: 0 <= k < |rest| ==> rest[k] == batch[k + 1];
      var next := if first.identityId in identities then identities else identities[first.identityId := first];
      ConsistentIsEnsured(next, rest);
    }
  }

  /** Equal records converge: a batch is accepted exactly when it contradicts neither the table nor itself. */
  lemma EnsuredIffConsistent(identities: Identities, batch: seq<ModelIdentity>)
    ensures Ensured(identities, batch).Some? <==> Consistent(identities, batch)
  {
    if Ensured(identities, batch).Some? {
      EnsuringOnlyAdds(identities, batch);
    } else if Consistent(identities, batch) {
      ConsistentIsEnsured(identities, batch);
    }
  }

  /** What every transaction keeps of the alias history. */
  ghost predicate SoundHistory(t: Tables) {
    AllGapFree(t.aliases) && AllNamed(t.aliases, t.identities.Keys)
  }

  lemma StepKeepsHistory(t: Tables, e: Event)
    requires SoundHistory(t)
    ensures SoundHistory(After(t, e))
    ensures t.identities.Keys <= After(t, e).identities.Keys
  {
    match e
    case Ensure(batch) =>
      if TakesEffect(t, e) {
        EnsuringOnlyAdds(t.identities, batch);
      }
    case Commit(snapshot, decisions, actor, fence) =>
      if TakesEffect(t, e) {
        BatchKeepsTimeline(t.identities.Keys, t.aliases, decisions, actor);
      }
    case Replace(decision, actor) =>
      if TakesEffect(t, e) {
        BatchKeepsTimeline(t.identities.Keys, t.aliases, [decision], actor);
      }
    case _ =>
  }

  /** In every reachable state each key's history is a gap-free timeline and names stored identities. */
  lemma {:induction false} HistoryIsGapFree(run: seq<Event>, k: nat)
    requires k <= |run|
    ensures SoundHistory(StateAt(run, k))
  {
    if k > 0 {
      HistoryIsGapFree(run, k - 1);
      StepKeepsHistory(StateAt(run, k - 1), run[k - 1]);
    }
  }

  /** The first decision of a batch that fails a check in the table as the earlier ones left it. */
  ghost predicate FailsAt(known: set<IdentityId>, rows: seq<AliasRow>, decisions: seq<AliasDecision>, actor: Actor, k: nat) {
    k < |decisions| && AfterWrites(known, rows, decisions[..k], actor).Some?
    && !CanWrite(known, AfterWrites(known, rows, decisions[..k], actor).value, decisions[k])
  }

  lemma FailureMoves(
    known: set<IdentityId>, rows: seq<AliasRow>, decisions: seq<AliasDecision>, actor: Actor, k: nat)
    requires decisions != [] && CanWrite(known, rows, decisions[0])
    ensures FailsAt(known, Written(rows, decisions[0], actor), decisions[1..], actor, k)
        <==> FailsAt(known, rows, decisions, actor, k + 1)
  {
    if k < |decisions| - 1 {
      assert decisions[..k + 1][0] == decisions[0] && decisions[..k + 1][1..] == decisions[1..][..k];
    }
  }

  /** A batch is refused exactly when some decision fails its checks once those before it are written. */
  lemma {:induction false} BatchRefusedIff(
    known: set<IdentityId>, rows: seq<AliasRow>, decisions: seq<AliasDecision>, actor: Actor)
    ensures AfterWrites(known, rows, decisions, actor).None? <==> exists k :: FailsAt(known, rows, decisions, actor, k)
    decreases |decisions|
  {
    if decisions != [] {
      assert decisions[..0] == [];
      if !CanWrite(known, rows, decisions[0]) {
        assert FailsAt(known, rows, decisions, actor, 0);
      } else {
        var next, rest := Written(rows, decisions[0], actor), decisions[1..];
        BatchRefusedIff(known, next, rest, actor);
        if k: nat :| FailsAt(known, next, rest, actor, k) {
          FailureMoves(known, rows, decisions, actor, k);
        } else if k: nat :| FailsAt(known, rows, decisions, actor, k) {
          FailureMoves(known, rows, decisions, actor, k - 1);
        }
      }
    }
  }

  lemma {:induction false} LastIsLatest(history: seq<AliasDecision>, k: nat)
    requires GapFree(history) && k < |history|
    ensures history[k].decidedAt <= history[|history| - 1].decidedAt
    ensures history[k].supersededAt.None? <==> k == |history| - 1
    decreases |history| - k
  {
    if k < |history| - 1 {
      assert history[k].supersededAt == Some(history[k + 1].decidedAt);
      LastIsLatest(history, k + 1);
    }
  }

  lemma {:induction false} OpenRowIsInTimeline(rows: seq<AliasRow>, key: OfferKey, row: AliasRow) returns (k: nat)
    requires row in rows && Open(row, key)
    ensures k < |Timeline(rows, key)| && Timeline(rows, key)[k] == row.decision
  {
    var front, last := rows[..|rows| - 1], rows[|rows| - 1];
    if row in front {
      k := OpenRowIsInTimeline(front, key, row);
    } else {
      k := |Timeline(front, key)|;
    }
  }

  lemma {:induction false} CurrentIsAnOpenRow(rows: seq<AliasRow>, key: OfferKey) returns (row: AliasRow)
    requires CurrentDecision(rows, key).Some?
    ensures row in rows && Open(row, key) && CurrentDecision(rows, key) == Some(row.decision.decidedAt)
  {
    if Open(rows[0], key) {
      row := rows[0];
    } else {
      row := CurrentIsAnOpenRow(rows[1..], key);
    }
  }

  /** The row decides the same source id, and no later row has closed it. */
  ghost predicate IsActive(row: AliasRow, decision: AliasDecision) {
    row.decision.provider == decision.provider && row.decision.sourceId == decision.sourceId
    && row.decision.supersededAt == None
  }

  /** What a decision by hand must meet, in the fields of the rows there are. */
  ghost predicate FitsIn(decision: AliasDecision, t: Tables) {
    decision.supersededAt == None && decision.identityId in t.identities
    && forall row :: row in t.aliases ==>
         row.decision.aliasId != decision.aliasId && (IsActive(row, decision) ==> row.decision.decidedAt < decision.decidedAt)
  }

  /**
   * A decision by hand is accepted exactly when it is active, names a stored identity under a new id, and comes after
   * the active decision on its source id.
   */
  lemma ReplacedIffItFits(t: Tables, decision: AliasDecision, actor: Actor)
    requires AllGapFree(t.aliases)
    ensures TakesEffect(t, Replace(decision, actor)) <==> FitsIn(decision, t)
  {
    var key := AliasKey(decision);
    assert [decision][1..] == [];
    assert AfterWrites(t.identities.Keys, t.aliases, [decision], actor).Some? <==>
           CanWrite(t.identities.Keys, t.aliases, decision);
    assert forall i :: 0 <= i < |t.aliases| ==> t.aliases[i] in t.aliases;
    if TakesEffect(t, Replace(decision, actor)) {
      forall row | row in t.aliases && Open(row, key) ensures row.decision.decidedAt < decision.decidedAt {
        var k := OpenRowIsInTimeline(t.aliases, key, row);
        OneRowIsOpen(t.aliases, key, row);
      }
    } else if CurrentDecision(t.aliases, key).Some? {
      var row := CurrentIsAnOpenRow(t.aliases, key);
      assert IsActive(row, decision);
    }
  }

  lemma EarlierIsClosed(history: seq<AliasDecision>, k: nat)
    requires GapFree(history)
    ensures k < |history| - 1 ==> history[k].supersededAt.Some?
  {
    if k < |history| - 1 {
      assert history[k].supersededAt == Some(history[k + 1].decidedAt);
    }
  }

  lemma OneRowIsOpen(rows: seq<AliasRow>, key: OfferKey, row: AliasRow)
    requires GapFree(Timeline(rows, key)) && row in rows && Open(row, key)
    ensures CurrentDecision(rows, key) == Some(row.decision.decidedAt)
  {
    var k := OpenRowIsInTimeline(rows, key, row);
    EarlierIsClosed(Timeline(rows, key), k);
    CurrentIsFirstOpen(rows, key);
    OpenIsLast(Timeline(rows, key));
  }
}
