/**
 * Every interleaving of workers over the store: a run is any sequence of transactions, each with
 * whatever clock reading its worker took. Fencing and the operation life cycle hold over all of them.
 */
module LedgerRuns {
  import opened Common
  import opened Domain
  import opened Ordering
  import opened InventoryTables

  datatype Event =
    | Submit(id: string, key: OperationKey, fingerprint: string, plan: string, now: real, expiresAt: real)
    | Claim(id: string, owner: string, now: real, leaseExpiresAt: real)
    | Renew(id: string, owner: string, now: real, leaseExpiresAt: real)
    | Finish(id: string, owner: string, status: Status, result: string, error: Option<string>, now: real)
    | Prune(now: real, limit: int)
    | Ensure(batch: seq<ModelIdentity>)
    | Commit(snapshot: Snapshot, decisions: seq<AliasDecision>, actor: Actor, fence: Option<Fence>)
    | Replace(decision: AliasDecision, actor: Actor)

  /** Whether the transaction takes effect rather than being refused or matching no row. */
  ghost predicate TakesEffect(t: Tables, e: Event) {
    match e
    case Submit(id, key, fingerprint, _, _, _) => Submitted(t.ledger, id, key, fingerprint).Created?
    case Claim(id, _, now, _) => CanClaim(t.ledger, id, now)
    case Renew(id, owner, _, _) => Owns(t.ledger, id, owner)
    case Finish(id, owner, status, _, _, _) => CanFinish(t.ledger, id, owner, status)
    case Prune(_, _) => true
    case Ensure(batch) => Ensured(t.identities, batch).Some?
    case Commit(snapshot, decisions, actor, fence) => AfterCommit(t, snapshot, decisions, actor, fence).Some?
    case Replace(decision, actor) => AfterReplace(t, decision, actor).Some?
  }

  ghost function After(t: Tables, e: Event): Tables {
    match e
    case Submit(id, key, fingerprint, plan, now, expiresAt) =>
      t.(ledger := AfterSubmit(t.ledger, id, key, fingerprint, plan, now, expiresAt))
    case Claim(id, owner, now, leaseExpiresAt) => t.(ledger := AfterClaim(t.ledger, id, owner, now, leaseExpiresAt))
    case Renew(id, owner, now, leaseExpiresAt) => t.(ledger := AfterRenew(t.ledger, id, owner, now, leaseExpiresAt))
    case Finish(id, owner, status, result, error, now) =>
      t.(ledger := AfterFinish(t.ledger, id, owner, status, result, error, now))
    case Prune(now, limit) => t.(ledger := AfterPrune(t.ledger, now, limit))
    case Ensure(batch) => if TakesEffect(t, e) then t.(identities := Ensured(t.identities, batch).value) else t
    case Commit(snapshot, decisions, actor, fence) =>
      if TakesEffect(t, e) then AfterCommit(t, snapshot, decisions, actor, fence).value else t
    case Replace(decision, actor) => if TakesEffect(t, e) then AfterReplace(t, decision, actor).value else t
  }

  /** The tables after the first `k` transactions. */
  ghost function StateAt(run: seq<Event>, k: nat): Tables
    requires k <= |run|
  {
    if k == 0 then EMPTY else After(StateAt(run, k - 1), run[k - 1])
  }

  ghost predicate Took(run: seq<Event>, i: nat)
    requires i < |run|
  {
    TakesEffect(StateAt(run, i), run[i])
  }

  // ----- The ledger alone -----

  ghost predicate Removed(ledger: Ledger, now: real, id: string) {
    id in ledger && Terminal(ledger[id].status) && ledger[id].expiresAt <= now
  }

  lemma PruneRemovesOnlyExpired(ledger: Ledger, now: real, limit: int)
    ensures forall id :: id in ledger && id !in AfterPrune(ledger, now, limit) ==> Removed(ledger, now, id)
    ensures forall id :: id in AfterPrune(ledger, now, limit) ==>
              id in ledger && AfterPrune(ledger, now, limit)[id] == ledger[id]
  {
  }

  lemma SubmitKeepsLedger(
    ledger: Ledger, id: string, key: OperationKey, fingerprint: string, plan: string, now: real, expiresAt: real)
    requires ValidLedger(ledger)
    ensures ValidLedger(AfterSubmit(ledger, id, key, fingerprint, plan, now, expiresAt))
  {
    if Submitted(ledger, id, key, fingerprint).Created? {
      forall other | other in ledger ensures ledger[other].key != key {
        assert other !in UnderKey(ledger, key);
      }
    }
  }

  /** One idempotency key names at most one row, and a row holds a lease exactly while it runs. */
  lemma StepKeepsLedger(t: Tables, e: Event)
    requires ValidLedger(t.ledger)
    ensures ValidLedger(After(t, e).ledger)
  {
    match e
    case Submit(id, key, fingerprint, plan, now, expiresAt) =>
      SubmitKeepsLedger(t.ledger, id, key, fingerprint, plan, now, expiresAt);
    case Prune(now, limit) => PruneRemovesOnlyExpired(t.ledger, now, limit);
    case _ =>
  }

  lemma {:induction false} RunKeepsLedger(run: seq<Event>, k: nat)
    requires k <= |run|
    ensures ValidLedger(StateAt(run, k).ledger)
  {
    if k > 0 {
      RunKeepsLedger(run, k - 1);
      StepKeepsLedger(StateAt(run, k - 1), run[k - 1]);
    }
  }

  // ----- Life cycle -----

  function Rank(status: Status): nat {
    if status.Queued? then 0 else if status.Running? then 1 else 2
  }

  /**
   * A row only moves from queued to running to an end, a finished row never changes again, and only
   * an expired finished row is ever deleted. Its key, fingerprint and plan never change.
   */
  lemma StatusOnlyAdvances(t: Tables, e: Event, id: string)
    requires ValidLedger(t.ledger) && id in t.ledger
    ensures var after := After(t, e).ledger;
            if id in after then
              Rank(t.ledger[id].status) <= Rank(after[id].status)
              && (Terminal(t.ledger[id].status) ==> after[id] == t.ledger[id])
              && after[id].key == t.ledger[id].key && after[id].fingerprint == t.ledger[id].fingerprint
              && after[id].plan == t.ledger[id].plan && after[id].createdAt == t.ledger[id].createdAt
            else Terminal(t.ledger[id].status) && e.Prune? && t.ledger[id].expiresAt <= e.now
  {
  }

  ghost predicate Creates(run: seq<Event>, i: nat, id: string)
    requires i < |run|
  {
    run[i].Submit? && run[i].id == id && Took(run, i)
  }

  ghost predicate Finishes(run: seq<Event>, i: nat, id: string)
    requires i < |run|
  {
    run[i].Finish? && run[i].id == id && Took(run, i)
  }

  ghost function CreationCount(run: seq<Event>, k: nat, id: string): nat
    requires k <= |run|
  {
    if k == 0 then 0 else CreationCount(run, k - 1, id) + if Creates(run, k - 1, id) then 1 else 0
  }

  ghost function FinishCount(run: seq<Event>, k: nat, id: string): nat
    requires k <= |run|
  {
    if k == 0 then 0 else FinishCount(run, k - 1, id) + if Finishes(run, k - 1, id) then 1 else 0
  }

  ghost predicate Pending(ledger: Ledger, id: string) {
    id in ledger && !Terminal(ledger[id].status)
  }

  /**
   * Accounting over a whole run: each accepted operation is finished once or is still pending.
   * So at most one finish succeeds per creation, and no accepted operation is ever lost.
   */
  lemma {:induction false} AcceptedIsFinishedOrPending(run: seq<Event>, k: nat, id: string)
    requires k <= |run|
    ensures CreationCount(run, k, id)
         == FinishCount(run, k, id) + if Pending(StateAt(run, k).ledger, id) then 1 else 0
  {
    if k > 0 {
      AcceptedIsFinishedOrPending(run, k - 1, id);
      RunKeepsLedger(run, k - 1);
      PendingChanges(StateAt(run, k - 1), run[k - 1], id);
    }
  }

  lemma PendingChanges(t: Tables, e: Event, id: string)
    requires ValidLedger(t.ledger)
    ensures !Pending(t.ledger, id) ==>
              (Pending(After(t, e).ledger, id) <==> e.Submit? && e.id == id && TakesEffect(t, e))
    ensures Pending(t.ledger, id) ==>
              (!Pending(After(t, e).ledger, id) <==> e.Finish? && e.id == id && TakesEffect(t, e))
    ensures Pending(t.ledger, id) ==> !(e.Submit? && e.id == id && TakesEffect(t, e))
    ensures !Pending(t.ledger, id) ==> !(e.Finish? && e.id == id && TakesEffect(t, e))
  {
  }

  /** The scan for work returns exactly what a claim at the same instant could take. */
  lemma RecoverableIsClaimable(ledger: Ledger, id: string, owner: string, now: real, leaseExpiresAt: real)
    requires ValidLedger(ledger) && now < leaseExpiresAt
    ensures id in Recoverable(ledger, now) <==>
            id in ledger && AfterClaim(ledger, id, owner, now, leaseExpiresAt)[id] != ledger[id]
  {
  }

  /** A pending operation becomes claimable as soon as its lease, if it has one, has run out. */
  lemma PendingIsRecoverable(run: seq<Event>, k: nat, id: string, now: real)
    requires k <= |run| && CreationCount(run, k, id) > FinishCount(run, k, id)
    ensures Pending(StateAt(run, k).ledger, id)
    ensures (StateAt(run, k).ledger[id].leaseExpiresAt.Some? ==> StateAt(run, k).ledger[id].leaseExpiresAt.value <= now)
            <==> id in Recoverable(StateAt(run, k).ledger, now)
  {
    AcceptedIsFinishedOrPending(run, k, id);
    RunKeepsLedger(run, k);
  }

  // ----- Idempotent submission -----

  ghost predicate PresentThroughout(run: seq<Event>, from: nat, until: nat, id: string)
    requires from <= until <= |run|
  {
    forall m :: from <= m <= until ==> id in StateAt(run, m).ledger
  }

  lemma {:induction false} IntentIsKept(run: seq<Event>, from: nat, until: nat, id: string)
    requires from <= until <= |run| && PresentThroughout(run, from, until, id)
    ensures StateAt(run, until).ledger[id].key == StateAt(run, from).ledger[id].key
    ensures StateAt(run, until).ledger[id].fingerprint == StateAt(run, from).ledger[id].fingerprint
    decreases until
  {
    if from < until {
      IntentIsKept(run, from, until - 1, id);
      RunKeepsLedger(run, until - 1);
      assert id in StateAt(run, until - 1).ledger && id in StateAt(run, until).ledger;
      StatusOnlyAdvances(StateAt(run, until - 1), run[until - 1], id);
    }
  }

  lemma OneRowUnderKey(ledger: Ledger, id: string, key: OperationKey)
    requires ValidLedger(ledger) && id in ledger && ledger[id].key == key
    ensures UnderKey(ledger, key) == {id}
  {
  }

  /**
   * While the row a key created is retained, submitting that key again returns the same row when the
   * intent is equal and is refused when it is not; either way no table changes.
   */
  lemma ResubmissionIsIdempotent(run: seq<Event>, i: nat, k: nat)
    requires i < k < |run| && run[i].Submit? && Took(run, i)
    requires run[k].Submit? && run[k].key == run[i].key
    requires PresentThroughout(run, i + 1, k, run[i].id)
    ensures Submitted(StateAt(run, k).ledger, run[k].id, run[k].key, run[k].fingerprint)
         == if run[k].fingerprint == run[i].fingerprint then Existing(run[i].id) else Conflict
    ensures StateAt(run, k + 1) == StateAt(run, k)
  {
    IntentIsKept(run, i + 1, k, run[i].id);
    RunKeepsLedger(run, k);
    assert run[i].id in StateAt(run, k).ledger;
    OneRowUnderKey(StateAt(run, k).ledger, run[i].id, run[k].key);
  }

  // ----- Fencing -----

  /** Who claimed `id` last, unless that claim has been finished. Clocks play no part in it. */
  ghost function Holder(run: seq<Event>, k: nat, id: string): Option<string>
    requires k <= |run|
  {
    if k == 0 then None
    else
      var e := run[k - 1];
      if e.Claim? && e.id == id && Took(run, k - 1) then Some(e.owner)
      else if Finishes(run, k - 1, id) then None
      else Holder(run, k - 1, id)
  }

  function OwnerOf(ledger: Ledger, id: string): Option<string> {
    if id in ledger then ledger[id].leaseOwner else None
  }

  lemma OwnerChanges(t: Tables, e: Event, id: string)
    requires ValidLedger(t.ledger)
    ensures OwnerOf(After(t, e).ledger, id)
         == if e.Claim? && e.id == id && TakesEffect(t, e) then Some(e.owner)
            else if e.Finish? && e.id == id && TakesEffect(t, e) then None
            else OwnerOf(t.ledger, id)
  {
    if e.Prune? {
      PruneRemovesOnlyExpired(t.ledger, e.now, e.limit);
    }
  }

  lemma {:induction false} HolderIsOwner(run: seq<Event>, k: nat, id: string)
    requires k <= |run|
    ensures Holder(run, k, id) == OwnerOf(StateAt(run, k).ledger, id)
  {
    if k > 0 {
      HolderIsOwner(run, k - 1, id);
      RunKeepsLedger(run, k - 1);
      OwnerChanges(StateAt(run, k - 1), run[k - 1], id);
    }
  }

  /** Renewing, finishing and fenced commits: what a worker does under its claim. */
  ghost predicate ActsUnderClaim(e: Event, id: string, owner: string) {
    match e
    case Renew(i, o, _, _) => i == id && o == owner
    case Finish(i, o, _, _, _, _) => i == id && o == owner
    case Commit(_, _, _, Some(fence)) => fence.operationId == id && fence.ownerId == owner
    case _ => false
  }

  ghost predicate Acted(run: seq<Event>, i: nat, id: string, owner: string)
    requires i < |run|
  {
    ActsUnderClaim(run[i], id, owner) && Took(run, i)
  }

  ghost predicate Claimed(run: seq<Event>, i: nat, id: string, owner: string)
    requires i < |run|
  {
    run[i].Claim? && run[i].id == id && run[i].owner == owner && Took(run, i)
  }

  /** No action under a claim takes effect unless its worker made the last claim, still unfinished. */
  lemma OnlyTheHolderActs(run: seq<Event>, i: nat, id: string, owner: string)
    requires i < |run| && Acted(run, i, id, owner)
    ensures Holder(run, i, id) == Some(owner)
  {
    HolderIsOwner(run, i, id);
  }

  lemma {:induction false} HoldingNeedsClaim(run: seq<Event>, from: nat, until: nat, id: string, owner: string) returns (j: nat)
    requires from <= until <= |run|
    requires Holder(run, from, id) != Some(owner) && Holder(run, until, id) == Some(owner)
    ensures from <= j < until && Claimed(run, j, id, owner)
    decreases until
  {
    if Holder(run, until - 1, id) == Some(owner) {
      j := HoldingNeedsClaim(run, from, until - 1, id, owner);
    } else {
      j := until - 1;
    }
  }

  /**
   * Fencing, whatever the clocks say: once another worker has claimed an operation, nothing its
   * previous owner does under the old claim takes effect until that owner claims again.
   */
  lemma TakeoverFencesPreviousOwner(run: seq<Event>, i: nat, k: nat, id: string, owner: string, successor: string)
    returns (j: nat)
    requires i < k < |run| && owner != successor
    requires Claimed(run, i, id, successor) && Acted(run, k, id, owner)
    ensures i < j < k && Claimed(run, j, id, owner)
  {
    OnlyTheHolderActs(run, k, id, owner);
    assert Holder(run, i + 1, id) == Some(successor);
    j := HoldingNeedsClaim(run, i + 1, k, id, owner);
  }

  /** A finished operation is fenced for everyone until it is claimed afresh. */
  lemma FinishFencesEveryone(run: seq<Event>, i: nat, k: nat, id: string, owner: string) returns (j: nat)
    requires i < k < |run| && Finishes(run, i, id) && Acted(run, k, id, owner)
    ensures i < j < k && Claimed(run, j, id, owner)
  {
    OnlyTheHolderActs(run, k, id, owner);
    assert Holder(run, i + 1, id) == None;
    j := HoldingNeedsClaim(run, i + 1, k, id, owner);
  }

  ghost predicate QuietSince(run: seq<Event>, j: nat, k: nat, id: string)
    requires j <= k <= |run|
  {
    forall m :: j < m < k ==> !Finishes(run, m, id) && !(run[m].Claim? && run[m].id == id && Took(run, m))
  }

  lemma {:induction false} LastClaim(run: seq<Event>, k: nat, id: string, owner: string) returns (j: nat)
    requires k <= |run| && Holder(run, k, id) == Some(owner)
    ensures j < k && Claimed(run, j, id, owner) && QuietSince(run, j, k, id)
    ensures forall m :: j < m <= k ==> Holder(run, m, id) == Some(owner)
  {
    if Claimed(run, k - 1, id, owner) {
      j := k - 1;
    } else {
      j := LastClaim(run, k - 1, id, owner);
    }
  }

  /**
   * Every effective action falls in the epoch of one claim by its own worker: since that claim nobody
   * else claimed, nobody finished, and everything that took effect on the operation was that worker's.
   */
  lemma ActionsFallInClaimEpochs(run: seq<Event>, k: nat, id: string, owner: string) returns (j: nat)
    requires k < |run| && Acted(run, k, id, owner)
    ensures j < k && Claimed(run, j, id, owner) && QuietSince(run, j, k, id)
    ensures forall m, other :: j < m < k && Acted(run, m, id, other) ==> other == owner
  {
    OnlyTheHolderActs(run, k, id, owner);
    j := LastClaim(run, k, id, owner);
    forall m, other | j < m < k && Acted(run, m, id, other) ensures other == owner {
      OnlyTheHolderActs(run, m, id, other);
    }
  }

  // ----- Leases -----

  /** A claim or a renewal that gave the operation a lease. */
  ghost predicate Leases(run: seq<Event>, i: nat, id: string)
    requires i < |run|
  {
    (run[i].Claim? || run[i].Renew?) && run[i].id == id && Took(run, i)
  }

  /** Nothing was renewed or finished in between, and every claim tried was read before `until`. */
  ghost predicate OnlyEarlyClaims(run: seq<Event>, i: nat, k: nat, id: string, until: real)
    requires i < k <= |run|
  {
    forall m :: i < m < k ==>
      !Finishes(run, m, id) && !(run[m].Renew? && run[m].id == id && Took(run, m))
      && (run[m].Claim? && run[m].id == id ==> run[m].now < until)
  }

  /** The operation runs under that owner's lease, until that instant. */
  ghost predicate HeldBy(ledger: Ledger, id: string, owner: string, until: real) {
    id in ledger && ledger[id].status == Running && ledger[id].leaseOwner == Some(owner)
    && ledger[id].leaseExpiresAt == Some(until)
  }

  lemma StepKeepsLease(t: Tables, e: Event, id: string, owner: string, until: real)
    requires ValidLedger(t.ledger) && HeldBy(t.ledger, id, owner, until)
    requires (e.Renew? || e.Finish?) && e.id == id ==> !TakesEffect(t, e)
    requires e.Claim? && e.id == id ==> e.now < until
    ensures HeldBy(After(t, e).ledger, id, owner, until)
  {
    match e
    case Prune(now, limit) => PruneRemovesOnlyExpired(t.ledger, now, limit);
    case _ =>
  }

  lemma {:induction false} LeaseIsHeld(run: seq<Event>, i: nat, k: nat, id: string)
    requires i < k <= |run| && Leases(run, i, id) && OnlyEarlyClaims(run, i, k, id, run[i].leaseExpiresAt)
    ensures HeldBy(StateAt(run, k).ledger, id, run[i].owner, run[i].leaseExpiresAt)
    decreases k
  {
    if i < k - 1 {
      RunKeepsLedger(run, k - 1);
      LeaseIsHeld(run, i, k - 1, id);
      StepKeepsLease(StateAt(run, k - 1), run[k - 1], id, run[i].owner, run[i].leaseExpiresAt);
    }
  }

  /**
   * A lease, taken by claiming or prolonged by renewing, keeps everyone out until it expires and not a moment longer,
   * as long as it is neither renewed nor finished meanwhile.
   */
  lemma LeaseKeepsOthersOut(run: seq<Event>, i: nat, k: nat, id: string)
    requires i < k < |run| && Leases(run, i, id) && OnlyEarlyClaims(run, i, k, id, run[i].leaseExpiresAt)
    requires run[k].Claim? && run[k].id == id
    ensures Took(run, k) <==> run[i].leaseExpiresAt <= run[k].now
    ensures !Took(run, k) ==> StateAt(run, k + 1) == StateAt(run, k)
  {
    LeaseIsHeld(run, i, k, id);
  }

  /** A fenced commit that takes effect was read before the lease of its own running operation expired. */
  lemma FencedCommitIsInTime(run: seq<Event>, k: nat)
    requires k < |run| && run[k].Commit? && run[k].fence.Some? && Took(run, k)
    ensures var fence, ledger := run[k].fence.value, StateAt(run, k).ledger;
            fence.operationId in ledger && ledger[fence.operationId].status == Running
            && ledger[fence.operationId].leaseOwner == Some(fence.ownerId)
            && ledger[fence.operationId].leaseExpiresAt.Some? && fence.now < ledger[fence.operationId].leaseExpiresAt.value
  {
  }

  /** Under a lease neither renewed nor finished since, a fence of its owner holds exactly until it expires. */
  lemma FenceHoldsUntilExpiry(run: seq<Event>, i: nat, k: nat, id: string, owner: string, now: real)
    requires i < k <= |run| && Leases(run, i, id) && OnlyEarlyClaims(run, i, k, id, run[i].leaseExpiresAt)
    ensures FenceHolds(StateAt(run, k).ledger, Fence(id, owner, now)) <==>
            owner == run[i].owner && now < run[i].leaseExpiresAt
  {
    LeaseIsHeld(run, i, k, id);
  }
}
