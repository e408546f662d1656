/**
 * The tables of the benchmark platform store and what each SQL transaction does to them, as functions:
 * the operation ledger, the identities, the alias history and the append-only snapshots.
 */
module InventoryTables {
  import opened Common
  import opened Domain
  import opened Ordering

  // ----- The operation ledger -----

  datatype Status = Queued | Running | Succeeded | Partial | Failed | Cancelled

  predicate Terminal(status: Status) {
    status.Succeeded? || status.Partial? || status.Failed? || status.Cancelled?
  }

  datatype OperationKey = OperationKey(actorId: string, scope: string, targetUserId: string, idempotencyKey: string)

  datatype Operation = Operation(
    key: OperationKey, fingerprint: string, status: Status, plan: string, result: string, error: Option<string>,
    createdAt: real, updatedAt: real, expiresAt: real, leaseOwner: Option<string>, leaseExpiresAt: Option<real>)

  type Ledger = map<string, Operation>

  /** The unique index on the idempotency key, and a lease exactly while running. */
  ghost predicate ValidLedger(ledger: Ledger) {
    (forall a, b :: a in ledger && b in ledger && ledger[a].key == ledger[b].key ==> a == b)
    && forall id :: id in ledger ==>
         (ledger[id].leaseOwner.Some? <==> ledger[id].status.Running?)
         && (ledger[id].leaseExpiresAt.Some? <==> ledger[id].status.Running?)
  }

  /** Rows under one idempotency key; the unique index leaves at most one. */
  function UnderKey(ledger: Ledger, key: OperationKey): set<string> {
    set id | id in ledger && ledger[id].key == key
  }

  datatype SubmitOutcome = Created(id: string) | Existing(id: string) | Conflict | Collision

  function Submission(key: OperationKey, fingerprint: string, plan: string, now: real, expiresAt: real): Operation {
    Operation(key, fingerprint, Queued, plan, "{}", None, now, now, expiresAt, None, None)
  }

  /** What `claim_inventory_refresh_operation` answers. */
  ghost function Submitted(ledger: Ledger, id: string, key: OperationKey, fingerprint: string): SubmitOutcome {
    if UnderKey(ledger, key) == {} then (if id in ledger then Collision else Created(id))
    else
      var existing :| existing in UnderKey(ledger, key);
      if ledger[existing].fingerprint == fingerprint then Existing(existing) else Conflict
  }

  ghost function AfterSubmit(
    ledger: Ledger, id: string, key: OperationKey, fingerprint: string, plan: string, now: real, expiresAt: real): Ledger
  {
    if Submitted(ledger, id, key, fingerprint).Created?
    then ledger[id := Submission(key, fingerprint, plan, now, expiresAt)]
    else ledger
  }

  /** The WHERE clause shared by the claim and by the recovery scan. */
  predicate Claimable(operation: Operation, now: real) {
    operation.status.Queued?
    || (operation.status.Running?
        && (operation.leaseExpiresAt.None? || operation.leaseExpiresAt.value <= now))
  }

  predicate CanClaim(ledger: Ledger, id: string, now: real) {
    id in ledger && Claimable(ledger[id], now)
  }

  function AfterClaim(ledger: Ledger, id: string, owner: string, now: real, leaseExpiresAt: real): Ledger {
    if CanClaim(ledger, id, now)
    then ledger[id := ledger[id].(status := Running, leaseOwner := Some(owner),
                                  leaseExpiresAt := Some(leaseExpiresAt), updatedAt := now)]
    else ledger
  }

  /** The guard of renewing and finishing. It never reads a clock. */
  predicate Owns(ledger: Ledger, id: string, owner: string) {
    id in ledger && ledger[id].status.Running? && ledger[id].leaseOwner == Some(owner)
  }

  function AfterRenew(ledger: Ledger, id: string, owner: string, now: real, leaseExpiresAt: real): Ledger {
    if Owns(ledger, id, owner)
    then ledger[id := ledger[id].(leaseExpiresAt := Some(leaseExpiresAt), updatedAt := now)]
    else ledger
  }

  predicate CanFinish(ledger: Ledger, id: string, owner: string, status: Status) {
    Terminal(status) && Owns(ledger, id, owner)
  }

  function AfterFinish(
    ledger: Ledger, id: string, owner: string, status: Status, result: string, error: Option<string>, now: real): Ledger
  {
    if CanFinish(ledger, id, owner, status)
    then ledger[id := ledger[id].(status := status, result := result, error := error, updatedAt := now,
                                  leaseOwner := None, leaseExpiresAt := None)]
    else ledger
  }

  function Clamp(limit: int, most: nat): nat
    requires most > 0
  {
    if limit < 1 then 1 else if limit > most then most else limit
  }

  function Expired(ledger: Ledger, now: real): set<string> {
    set id | id in ledger && Terminal(ledger[id].status) && ledger[id].expiresAt <= now
  }

  function ExpiryTimes(ledger: Ledger): map<string, real> {
    map id | id in ledger :: ledger[id].expiresAt
  }

  function CreationTimes(ledger: Ledger): map<string, real> {
    map id | id in ledger :: ledger[id].createdAt
  }

  ghost function AfterPrune(ledger: Ledger, now: real, limit: int): Ledger {
    ledger - FirstFew(Expired(ledger, now), ExpiryTimes(ledger), Clamp(limit, 1000))
  }

  function Recoverable(ledger: Ledger, now: real): set<string> {
    set id | id in ledger && Claimable(ledger[id], now)
  }

  datatype Fence = Fence(operationId: string, ownerId: string, now: real)

  predicate FenceHolds(ledger: Ledger, fence: Fence) {
    Owns(ledger, fence.operationId, fence.ownerId)
    && ledger[fence.operationId].leaseExpiresAt.Some? && ledger[fence.operationId].leaseExpiresAt.value > fence.now
  }

  // ----- Identities -----

  type Identities = map<IdentityId, ModelIdentity>

  /** `ensure_identities`: insert if absent, and every row must then equal what was asked for. */
  function Ensured(identities: Identities, batch: seq<ModelIdentity>): Option<Identities>
    decreases |batch|
  {
    if batch == [] then Some(identities)
    else
      var first := batch[0];
      if first.identityId !in identities then Ensured(identities[first.identityId := first], batch[1..])
      else if identities[first.identityId] == first then Ensured(identities, batch[1..])
      else None
  }

  // ----- The alias history -----

  datatype Actor = Actor(actorId: string, orgId: Option<string>)

  datatype AliasRow = AliasRow(decision: AliasDecision, reviewerOrgId: Option<string>)

  function AliasKey(decision: AliasDecision): OfferKey {
    OfferKey(decision.provider, decision.sourceId)
  }

  predicate Open(row: AliasRow, key: OfferKey) {
    AliasKey(row.decision) == key && row.decision.supersededAt.None?
  }

  /** `_ALIAS_CURRENT_SQL`: the decision time of the open row, if there is one. */
  function CurrentDecision(rows: seq<AliasRow>, key: OfferKey): Option<real> {
    if rows == [] then None
    else if Open(rows[0], key) then Some(rows[0].decision.decidedAt)
    else CurrentDecision(rows[1..], key)
  }

  function Superseded(rows: seq<AliasRow>, key: OfferKey, at: real): (closed: seq<AliasRow>)
    ensures |closed| == |rows|
  {
    seq(|rows|, i requires 0 <= i < |rows| =>
      if Open(rows[i], key) then rows[i].(decision := rows[i].decision.(supersededAt := Some(at))) else rows[i])
  }

  function Reviewed(decision: AliasDecision, actor: Actor): AliasDecision {
    if decision.reviewer.None? || decision.reviewer.value == "" then decision.(reviewer := Some(actor.actorId))
    else decision
  }

  predicate CanWrite(known: set<IdentityId>, rows: seq<AliasRow>, decision: AliasDecision) {
    var current := CurrentDecision(rows, AliasKey(decision));
    decision.identityId in known
    && (current.Some? ==> current.value < decision.decidedAt)
    && forall i :: 0 <= i < |rows| ==> rows[i].decision.aliasId != decision.aliasId
  }

  function Written(rows: seq<AliasRow>, decision: AliasDecision, actor: Actor): seq<AliasRow> {
    Superseded(rows, AliasKey(decision), decision.decidedAt)
    + [AliasRow(Reviewed(decision, actor).(supersededAt := None), actor.orgId)]
  }

  /** `_write_alias_decisions`: all of a batch or none of it. */
  function AfterWrites(
    known: set<IdentityId>, rows: seq<AliasRow>, decisions: seq<AliasDecision>, actor: Actor): Option<seq<AliasRow>>
    decreases |decisions|
  {
    if decisions == [] then Some(rows)
    else if CanWrite(known, rows, decisions[0])
    then AfterWrites(known, Written(rows, decisions[0], actor), decisions[1..], actor)
    else None
  }

  // ----- Snapshots -----

  datatype SnapshotStatus = Success | PartialSuccess | Failure | Stale

  datatype Offer = Offer(
    provider: string, upstreamModelId: string, identityId: IdentityId, scope: Scope, adapterRevision: string)

  datatype Snapshot = Snapshot(
    snapshotId: string, provider: string, scope: Scope, status: SnapshotStatus,
    startedAt: real, completedAt: real, expiresAt: real, paginationComplete: bool, adapterRevision: string,
    offers: seq<Offer>)

  /** Record validation, table checks and `_validate_inventory` together. */
  predicate ValidInventory(snapshot: Snapshot) {
    snapshot.startedAt <= snapshot.completedAt <= snapshot.expiresAt
    && (snapshot.status.Success? ==> snapshot.paginationComplete)
    && !snapshot.status.Stale?
    && (snapshot.status.Failure? ==> snapshot.offers == [])
    && forall i :: 0 <= i < |snapshot.offers| ==>
         snapshot.offers[i].provider == snapshot.provider && snapshot.offers[i].scope == snapshot.scope
         && snapshot.offers[i].adapterRevision == snapshot.adapterRevision
  }

  /** The primary key on snapshots and the unique offer and route ids within one. */
  predicate CanInsert(snapshots: seq<Snapshot>, snapshot: Snapshot) {
    (forall i :: 0 <= i < |snapshots| ==> snapshots[i].snapshotId != snapshot.snapshotId)
    && forall i, j :: 0 <= i < j < |snapshot.offers| ==>
         snapshot.offers[i].upstreamModelId != snapshot.offers[j].upstreamModelId
         || snapshot.offers[i].provider != snapshot.offers[j].provider
  }

  /** A decision must be active, cite its snapshot and match one of its offers. */
  predicate Supported(decision: AliasDecision, snapshot: Snapshot) {
    decision.supersededAt.None?
    && decision.snapshotId == Some(snapshot.snapshotId)
    && exists i :: 0 <= i < |snapshot.offers|
         && snapshot.offers[i].provider == decision.provider
         && snapshot.offers[i].upstreamModelId == decision.sourceId
         && snapshot.offers[i].identityId == decision.identityId
  }

  datatype Tables = Tables(ledger: Ledger, identities: Identities, aliases: seq<AliasRow>, snapshots: seq<Snapshot>)

  const EMPTY: Tables := Tables(map[], map[], [], [])

  /** `commit_reconciled_inventory`: fence, alias rewrite and snapshot in one transaction. */
  function AfterCommit(
    t: Tables, snapshot: Snapshot, decisions: seq<AliasDecision>, actor: Actor, fence: Option<Fence>): Option<Tables>
  {
    if !ValidInventory(snapshot) || exists i :: 0 <= i < |decisions| && !Supported(decisions[i], snapshot) then None
    else if fence.Some? && !FenceHolds(t.ledger, fence.value) then None
    else
      match AfterWrites(t.identities.Keys, t.aliases, decisions, actor)
      case None => None
      case Some(rows) =>
        if CanInsert(t.snapshots, snapshot)
        then Some(t.(aliases := rows, snapshots := t.snapshots + [snapshot]))
        else None
  }

  /** `replace_alias_decision`. */
  function AfterReplace(t: Tables, decision: AliasDecision, actor: Actor): Option<Tables> {
    if decision.supersededAt.Some? then None
    else
      match AfterWrites(t.identities.Keys, t.aliases, [decision], actor)
      case None => None
      case Some(rows) => Some(t.(aliases := rows))
  }
}
