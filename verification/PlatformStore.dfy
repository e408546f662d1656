/**
 * `BenchmarkPlatformStore`: the tables as fields, each transaction as one method. A method that
 * fails restores what it had already written, as the rolled-back transaction does.
 */
module PlatformStore {
  import opened Common
  import opened Domain
  import opened Ordering
  import opened InventoryTables

  lemma DeletionKeepsLedger(ledger: Ledger, gone: set<string>)
    requires ValidLedger(ledger) && gone <= ledger.Keys
    ensures ValidLedger(ledger - gone)
    ensures |ledger - gone| == |ledger| - |gone|
  {
  }

  lemma UpdateKeepsLedger(ledger: Ledger, id: string, operation: Operation)
    requires ValidLedger(ledger) && id in ledger && operation.key == ledger[id].key
    requires operation.leaseOwner.Some? <==> operation.status.Running?
    requires operation.leaseExpiresAt.Some? <==> operation.status.Running?
    ensures ValidLedger(ledger[id := operation])
  {
  }

  /** The ids of the prune's SELECT: terminal, expired, the first few by expiry. */
  method SelectExpired(ledger: Ledger, now: real, limit: int) returns (gone: set<string>)
    ensures gone == FirstFew(Expired(ledger, now), ExpiryTimes(ledger), Clamp(limit, 1000))
    ensures gone <= ledger.Keys
    ensures forall id :: id in gone ==> IsOver(ledger[id], now)
    ensures forall id :: id in ledger && IsOver(ledger[id], now) && id !in gone ==>
              |gone| == Clamp(limit, 1000) && forall other :: other in gone ==> ExpiresBefore(ledger, other, id)
  {
    var expired, times := Expired(ledger, now), ExpiryTimes(ledger);
    var rows := Select(expired, times, Clamp(limit, 1000));
    SelectionIsFirstFew(rows, expired, times, Clamp(limit, 1000));
    gone := set id | id in rows;
    ghost var all := DistinctRows(rows, times);
    assert gone == all;
    forall id | id in ledger && IsOver(ledger[id], now) && id !in gone ensures |gone| == Clamp(limit, 1000) {
      AllSelectedUnlessFull(rows, expired, times, Clamp(limit, 1000), id);
    }
  }

  /** Waiting for a worker: queued, or running under a lease that is over. */
  ghost predicate IsUp(operation: Operation, now: real) {
    operation.status == Queued
    || (operation.status == Running && (operation.leaseExpiresAt == None || operation.leaseExpiresAt.value <= now))
  }

  /** Ended, and kept for as long as it was to be kept. */
  ghost predicate IsOver(operation: Operation, now: real) {
    operation.status in {Status.Succeeded, Status.Partial, Status.Failed, Status.Cancelled} && operation.expiresAt <= now
  }

  ghost predicate CreatedBefore(ledger: Ledger, a: string, b: string) {
    a in ledger && b in ledger
    && (ledger[a].createdAt < ledger[b].createdAt || (ledger[a].createdAt == ledger[b].createdAt && Less(a, b)))
  }

  ghost predicate ExpiresBefore(ledger: Ledger, a: string, b: string) {
    a in ledger && b in ledger
    && (ledger[a].expiresAt < ledger[b].expiresAt || (ledger[a].expiresAt == ledger[b].expiresAt && Less(a, b)))
  }

  /** A selection leaves something out only when it is as long as it may be. */
  lemma AllSelectedUnlessFull(rows: seq<string>, ids: set<string>, at: map<string, real>, limit: nat, id: string)
    requires IsSelection(rows, ids, at, limit) && id in ids && id !in rows
    ensures |rows| == limit
  {
    var all := DistinctRows(rows, at);
    assert all <= ids && all != ids;
    Larger(all, ids);
  }

  ghost predicate KeyedById(identities: Identities) {
    forall id :: id in identities ==> identities[id].identityId == id
  }

  class BenchmarkPlatformStore {
    var operations: Ledger
    var identities: Identities
    var aliases: seq<AliasRow>
    var snapshots: seq<Snapshot>

    ghost predicate Valid()
      reads this
    {
      ValidLedger(operations) && KeyedById(identities)
    }

    ghost function State(): Tables
      reads this
    {
      Tables(operations, identities, aliases, snapshots)
    }

    constructor ()
      ensures Valid() && State() == EMPTY
    {
      operations, identities, aliases, snapshots := map[], map[], [], [];
    }

    method ClaimOperation(
      id: string, key: OperationKey, fingerprint: string, plan: string, now: real, expiresAt: real)
      returns (outcome: SubmitOutcome)
      requires Valid()
      modifies this`operations
      ensures Valid()
      ensures outcome == Submitted(old(operations), id, key, fingerprint)
      ensures operations == AfterSubmit(old(operations), id, key, fingerprint, plan, now, expiresAt)
      ensures outcome.Created? ==>
                id !in old(operations) && operations == old(operations)[id := operations[id]]
                && operations[id] == Operation(key, fingerprint, Queued, plan, "{}", None, now, now, expiresAt, None, None)
      ensures (exists other :: other in old(operations) && old(operations)[other].key == key) ==>
                !outcome.Created? && operations == old(operations)
    {
      var retained := UnderKey(operations, key);
      if retained == {} {
        if id in operations {
          return Collision;
        }
        assert forall a :: a in operations ==> operations[a].key == key ==> a in retained;
        operations := operations[id := Submission(key, fingerprint, plan, now, expiresAt)];
        return Created(id);
      }
      var existing :| existing in retained;
      if operations[existing].fingerprint != fingerprint {
        return Conflict;
      }
      return Existing(existing);
    }

    method ClaimExecution(id: string, owner: string, now: real, leaseExpiresAt: real) returns (row: Option<Operation>)
      requires Valid()
      modifies this`operations
      ensures Valid()
      ensures operations == AfterClaim(old(operations), id, owner, now, leaseExpiresAt)
      ensures row.Some? <==> CanClaim(old(operations), id, now)
      ensures row.Some? ==> id in operations && row.value == operations[id]
    {
      if id !in operations || !Claimable(operations[id], now) {
        return None;
      }
      var claimed := operations[id].(status := Running, leaseOwner := Some(owner),
                                     leaseExpiresAt := Some(leaseExpiresAt), updatedAt := now);
      UpdateKeepsLedger(operations, id, claimed);
      operations := operations[id := claimed];
      return Some(claimed);
    }

    method RenewExecution(id: string, owner: string, now: real, leaseExpiresAt: real) returns (renewed: bool)
      requires Valid()
      modifies this`operations
      ensures Valid()
      ensures operations == AfterRenew(old(operations), id, owner, now, leaseExpiresAt)
      ensures renewed <==> Owns(old(operations), id, owner)
    {
      renewed := id in operations && operations[id].status.Running? && operations[id].leaseOwner == Some(owner);
      if renewed {
        var kept := operations[id].(leaseExpiresAt := Some(leaseExpiresAt), updatedAt := now);
        UpdateKeepsLedger(operations, id, kept);
        operations := operations[id := kept];
      }
    }

    /** A status that is not terminal is refused before the ledger is touched. */
    method FinishExecution(id: string, owner: string, status: Status, result: string, error: Option<string>, now: real)
      returns (finished: bool)
      requires Valid()
      modifies this`operations
      ensures Valid()
      ensures operations == AfterFinish(old(operations), id, owner, status, result, error, now)
      ensures finished <==> CanFinish(old(operations), id, owner, status)
    {
      if !Terminal(status) {
        return false;
      }
      finished := id in operations && operations[id].status.Running? && operations[id].leaseOwner == Some(owner);
      if finished {
        var ended := operations[id].(status := status, result := result, error := error, updatedAt := now,
                                     leaseOwner := None, leaseExpiresAt := None);
        UpdateKeepsLedger(operations, id, ended);
        operations := operations[id := ended];
      }
    }

    /** Oldest claimable operations first, at most 500. */
    method RecoverableOperations(now: real, limit: int) returns (rows: seq<string>)
      ensures IsSelection(rows, Recoverable(operations, now), CreationTimes(operations), Clamp(limit, 500))
      ensures forall row :: row in rows ==> row in operations && IsUp(operations[row], now)
      ensures forall k, l :: 0 <= k < l < |rows| ==> CreatedBefore(operations, rows[k], rows[l])
      ensures forall id :: id in operations && IsUp(operations[id], now) && id !in rows ==>
                |rows| == (if limit < 1 then 1 else if limit > 500 then 500 else limit)
                && forall row :: row in rows ==> CreatedBefore(operations, row, id)
    {
      rows := Select(Recoverable(operations, now), CreationTimes(operations), Clamp(limit, 500));
      forall id | id in operations && IsUp(operations[id], now) && id !in rows
        ensures |rows| == Clamp(limit, 500)
      {
        AllSelectedUnlessFull(rows, Recoverable(operations, now), CreationTimes(operations), Clamp(limit, 500), id);
      }
    }

    method PruneOperations(now: real, limit: int) returns (count: nat)
      requires Valid()
      modifies this`operations
      ensures Valid()
      ensures operations == AfterPrune(old(operations), now, limit)
      ensures count == |old(operations)| - |operations|
      ensures forall id :: id in operations ==> id in old(operations) && operations[id] == old(operations[id])
      ensures forall id :: id in old(operations) && id !in operations ==> IsOver(old(operations[id]), now)
      ensures forall id :: id in operations && IsOver(operations[id], now) ==>
                count == (if limit < 1 then 1 else if limit > 1000 then 1000 else limit)
                && forall other :: other in old(operations) && other !in operations ==> ExpiresBefore(old(operations), other, id)
    {
      var gone := SelectExpired(operations, now, limit);
      DeletionKeepsLedger(operations, gone);
      operations := operations - gone;
      count := |gone|;
    }

    /** Equal concurrent inserts converge; a row that differs in anything undoes the whole batch. */
    method EnsureIdentities(batch: seq<ModelIdentity>) returns (ok: bool)
      requires Valid()
      modifies this`identities
      ensures Valid()
      ensures ok <==> Ensured(old(identities), batch).Some?
      ensures identities == if ok then Ensured(old(identities), batch).value else old(identities)
    {
      var saved := identities;
      for k := 0 to |batch|
        invariant Ensured(saved, batch) == Ensured(identities, batch[k..])
        invariant KeyedById(identities)
      {
        var identity := batch[k];
        assert batch[k..][0] == identity && batch[k..][1..] == batch[k + 1..];
        if identity.identityId !in identities {
          identities := identities[identity.identityId := identity];
        }
        if identities[identity.identityId] != identity {
          identities := saved;
          return false;
        }
      }
      return true;
    }

    method WriteDecisions(decisions: seq<AliasDecision>, actor: Actor) returns (ok: bool)
      modifies this`aliases
      ensures ok <==> AfterWrites(identities.Keys, old(aliases), decisions, actor).Some?
      ensures ok ==> aliases == AfterWrites(identities.Keys, old(aliases), decisions, actor).value
    {
      ghost var saved := aliases;
      for k := 0 to |decisions|
        invariant AfterWrites(identities.Keys, saved, decisions, actor)
               == AfterWrites(identities.Keys, aliases, decisions[k..], actor)
      {
        var decision := decisions[k];
        assert decisions[k..][0] == decision && decisions[k..][1..] == decisions[k + 1..];
        if decision.identityId !in identities {
          return false;
        }
        var current := CurrentDecision(aliases, AliasKey(decision));
        if current.Some? && current.value >= decision.decidedAt {
          return false;
        }
        if exists i :: 0 <= i < |aliases| && aliases[i].decision.aliasId == decision.aliasId {
          return false;
        }
        aliases := Superseded(aliases, AliasKey(decision), decision.decidedAt);
        aliases := aliases + [AliasRow(Reviewed(decision, actor).(supersededAt := None), actor.orgId)];
      }
      return true;
    }

    method CommitReconciled(snapshot: Snapshot, decisions: seq<AliasDecision>, actor: Actor, fence: Option<Fence>)
      returns (ok: bool)
      modifies this`aliases, this`snapshots
      ensures ok <==> AfterCommit(old(State()), snapshot, decisions, actor, fence).Some?
      ensures State() == if ok then AfterCommit(old(State()), snapshot, decisions, actor, fence).value else old(State())
    {
      if !ValidInventory(snapshot) || exists i :: 0 <= i < |decisions| && !Supported(decisions[i], snapshot) {
        return false;
      }
      if fence.Some? && !FenceHolds(operations, fence.value) {
        return false;
      }
      var saved := aliases;
      var written := WriteDecisions(decisions, actor);
      if !written || !CanInsert(snapshots, snapshot) {
        aliases := saved;
        return false;
      }
      snapshots := snapshots + [snapshot];
      return true;
    }

    method ReplaceAlias(decision: AliasDecision, actor: Actor) returns (ok: bool)
      modifies this`aliases
      ensures ok <==> AfterReplace(old(State()), decision, actor).Some?
      ensures State() == if ok then AfterReplace(old(State()), decision, actor).value else old(State())
    {
      if decision.supersededAt.Some? {
        return false;
      }
      var saved := aliases;
      ok := WriteDecisions([decision], actor);
      if !ok {
        aliases := saved;
      }
    }
  }
}
