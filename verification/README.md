# Verification models of the toto gateway

This project models the parts of the gateway whose correctness lives in the interplay of several functions or in
whole runs, and proves what they promise.

* **The inventory-refresh protocol.** Operations are submitted idempotently, claimed under a lease, renewed, finished
  once, recovered and pruned; snapshots and alias decisions are committed under a fence. `InventoryTables` says what
  each transaction does to the tables, `PlatformStore` is the store as a class whose methods are proved against that,
  `LedgerRuns` and `AliasTimeline` quantify over every interleaving of transactions with arbitrary clock readings.
  `RefreshPlan`, `InventoryRefresh` and `OperationRunner` are one refresh, the service that runs it and the worker
  that claims, refreshes and finishes; `StickyIdentities`, `RefreshRuns` and `RefreshCommits` are about sequences of
  refreshes, `LostFences` and `AliasFreeRuns` about the two kinds of sequence in which the promise fails, whose
  witnesses are built in `SmallRefreshes`, and `RefreshedRouting` about what a committed refresh makes of routing.
* **Identity reconciliation.** `IdentifierComponents` is the union-find with path halving, `IdentityReconciler` the
  assignment by alias, component, fingerprint and last of all provisionally, and `OfferNames` says which names and
  identifiers of two offers count as the same.
* **The routing index.** `SnapshotRevisions` and `CandidateIndex`: the incremental index against a full load.
* **Inspection.** `Pagination` and `Cursor`: keyset pages and the cursor that links them.
* **Dispatch.** `Breaker`, `Dispatch` and `Streaming`: the circuit breaker, the retry and fallback loop of
  `complete`, and the stream driver of `stream`.
* **The exact cache.** `ExactCache`: two levels, recency order, agreement with an unbounded map.
* **Numbers.** `Percentile` and `Aggregate`, with `ScoreValues` and `ScoreRaises` on what the scores are worth and when
  a raised fact can lower one, `CacheSavings`, `RateLimit`.

`Common`, `Domain`, `Ordering` and `Lists` hold shared vocabulary. Times, prices, scores and waits are real numbers;
hashes and uuids are injective constructors; clock readings, adapter answers, runner outcomes, peers and jitter are
parameters, so every theorem holds for all of them.

## Findings

Each of these is a theorem below, with the exact condition under which the code does meet the promise.

* A put of another value over a key the cache's first level holds leaves the old value there
  (`toto_gateway/cache/exact.py:127-133`), so a later lookup answers the old response. Every lookup of a run answers as
  a map would exactly when the run has no such put: `ExactCache.RunAnswersIff`, step by step `ExactCache.CoherentIff`
  and `ExactCache.StalePutIsSeen`. The class documentation calls the policy first-in first-out; the code promotes on a hit,
  so it is least recently used: `ExactCache.OrderIsRecency`.
* A refresh stores its new identities before it commits, and their content includes the creation time. A creation is
  refused exactly when another record of one of them is stored: `RefreshCommits.CreationRefusedIff`. So a refresh that
  discovers an unrecognised model and loses its fence in between blocks every later refresh that discovers the model and
  still does not recognise it, at any other clock reading and whatever else it discovers; over any run such a refresh
  stores nothing at all: `LostFences.LostFenceBlocksLaterRefreshes`, reached by `LostFences.LostFenceHappens`.
* The provisional identity ignores behaviour, so a discovery with two left-alone rows of one id and different behaviour
  gives both one identity, and no other discovery mixes behaviour: `IdentityReconciler.MergingIsConservativeIff`,
  `IdentityReconciler.MergingCanMixBehavior`.
* Used without approved aliases the refresh service is not sticky. A commit keeps the identity of a key exactly when it
  is the one the discovery and the known identities lead to: its component's, else the only one its usable fingerprint
  leads to or a new one shared with its twins, else the key's own (`AliasFreeRuns.AliasFreeRefreshKeepsIff`,
  `AliasFreeRuns.AloneIsKnownOrOwn` for a lone offer). A service on its own can move a model's history in two refreshes
  that both succeed: `AliasFreeRuns.IdentityMovesWithoutAliases`, `AliasFreeRuns.SomeIdentityMoves`.
* A negative retry setting leaves no attempts, and the dispatch loop then raises a null exception for the first candidate
  that passes its check, so at once for a gateway whose breaker was never used while no peer reports the provider open:
  `Dispatch.Gateway.Complete`.
* Fallback resolves ids, and a repeated catalog id resolves to its first entry. Every candidate keeps the planned
  residency class exactly when each eligible entry's id resolves to an entry of that class:
  `Dispatch.ResidencyKeptIff`, `Dispatch.NoFakeFallbackIff` and `Dispatch.RepeatedIdCrossesResidency`.
* The stream's permit is given back after its closing hooks, so it is lost exactly when one of them raises while the
  permit is held: `Streaming.StreamDriver.Stream`.
* Retention deletes rate-limit counters. No deletion ever reaches a window that is still called exactly when the
  retention and one second cover the window: `RateLimit.OpenWindowsSurviveIff`. For windows of up to a day that is one
  day of retention or more (`RateLimit.OneDayIsEnough`); nothing refuses a setting of zero days, with which a window
  admits twice its limit: `RateLimit.ShortRetentionForgets`.
* Raising a rating of a model can lower the model's own scores, since ratings are ranked among each other and tiers are
  collapsed by their median or hidden by default runs. A model with a default Elo of 1250 and a tier of 1200 scores less
  once the tier is raised to 1300. Raising a fact is safe whatever all values are exactly when it is no rating, or a default run, or outweighed by default runs of which none is a
  rating, or the only rating among tiers, or one of just two tiers that are both ratings: `ScoreRaises.RaisingIsSafeIff`.
  Beside default runs a given raise lowers a score exactly when it passes or meets a default rating:
  `ScoreRaises.TieredRaiseLowersIff`.
* The breaker's health view is documented to omit a provider with no recorded failure; asking `allow` already lists
  it: `Breaker.AskingListsTheKey`.
* The savings report does not clamp what the bill clamps. A call's saving is reported right at every price exactly when
  the bill cuts nothing off its reads and writes, and otherwise is off by the saving on what was cut, as are a line and
  the total within their rounding: `CacheSavings.ReportedRightlyIff`, `CacheSavings.ReportIsOffByTheCuts`,
  `CacheSavings.LineIsOffByTheCuts`, `CacheSavings.TotalIsOffByTheCuts`.

## Model

| member | source | states |
|---|---|---|
| PlatformStore.BenchmarkPlatformStore.ClaimOperation | toto_gateway/benchmarking/platform_store.py:231-293 | One row per idempotency key: the first submission creates it, an equal one gets it back, a different intent conflicts, and only a creation changes the ledger |
| PlatformStore.BenchmarkPlatformStore.ClaimExecution | toto_gateway/benchmarking/platform_store.py:295-320 | A claim succeeds exactly on a queued row or a running one whose lease has run out, and takes the lease |
| PlatformStore.BenchmarkPlatformStore.RenewExecution | toto_gateway/benchmarking/platform_store.py:322-357 | Renews exactly while the caller still owns the running row |
| PlatformStore.BenchmarkPlatformStore.FinishExecution | toto_gateway/benchmarking/platform_store.py:359-401 | Finishes exactly with a terminal status by the owner of a running row, and drops the lease |
| PlatformStore.BenchmarkPlatformStore.RecoverableOperations | toto_gateway/benchmarking/platform_store.py:403-413 | The operations queued or with a lease run out, oldest creation first and then by id, at least one and at most 500; one is left out only when the limit is reached and all given are older |
| PlatformStore.BenchmarkPlatformStore.PruneOperations | toto_gateway/benchmarking/platform_store.py:442-484 | Deletes only finished rows past their expiry, earliest expiry first and then by id, at most 1000; leaves one only when the limit is reached; reports how many |
| PlatformStore.BenchmarkPlatformStore.EnsureIdentities | toto_gateway/benchmarking/platform_store.py:494-503 | Inserts the whole batch or, when any stored record differs, nothing |
| PlatformStore.BenchmarkPlatformStore.WriteDecisions | toto_gateway/benchmarking/platform_store.py:1235-1256 | Each decision names a stored identity, is newer than the active one, closes it and becomes the active one |
| PlatformStore.BenchmarkPlatformStore.CommitReconciled | toto_gateway/benchmarking/platform_store.py:726-793 | Fence, alias rewrite and snapshot take effect together or not at all |
| PlatformStore.BenchmarkPlatformStore.ReplaceAlias | toto_gateway/benchmarking/platform_store.py:1212-1256 | A manual replacement is one decision written under the same checks, or nothing |
| LedgerRuns.RunKeepsLedger | toto_gateway/benchmarking/platform_store.py:231-413 | In every reachable state idempotency keys are unique and a lease is present exactly while running |
| LedgerRuns.StatusOnlyAdvances | toto_gateway/benchmarking/platform_store.py:322-484 | No transaction moves a status back, changes a finished row or its intent, or deletes anything but an expired finished row |
| LedgerRuns.AcceptedIsFinishedOrPending | toto_gateway/benchmarking/platform_store.py:359-484 | Over any run each accepted operation has finished exactly once or is still pending: none is lost, none finishes twice |
| LedgerRuns.RecoverableIsClaimable | toto_gateway/benchmarking/platform_store.py:403-413 | The recovery scan returns exactly what a claim at that instant could take |
| LedgerRuns.PendingIsRecoverable | toto_gateway/benchmarking/platform.py:581-602 | An accepted, unfinished operation is recoverable exactly when it holds no unexpired lease |
| LedgerRuns.ResubmissionIsIdempotent | toto_gateway/benchmarking/platform.py:289-326 | While the row is kept, resubmitting its key returns it or conflicts, and changes no table |
| LedgerRuns.OnlyTheHolderActs | toto_gateway/benchmarking/platform_store.py:795-820 | Whatever takes effect under a claim was done by the worker of the last unfinished claim |
| LedgerRuns.TakeoverFencesPreviousOwner | toto_gateway/benchmarking/platform_store.py:795-820 | After another worker's claim nothing of the previous owner takes effect until it claims again, whatever the clocks say |
| LedgerRuns.FinishFencesEveryone | toto_gateway/benchmarking/platform_store.py:359-401 | After a finish nothing takes effect on the operation until a fresh claim |
| LedgerRuns.ActionsFallInClaimEpochs | toto_gateway/benchmarking/platform.py:425-489 | Effective commits, renewals and finishes fall into consecutive epochs of one claim by one worker |
| LedgerRuns.LeaseKeepsOthersOut | toto_gateway/benchmarking/platform_store.py:295-357 | Over any run a lease, taken by a claim or prolonged by a renewal, refuses every claim read before it expires and admits the first one read from then on |
| LedgerRuns.FenceHoldsUntilExpiry | toto_gateway/benchmarking/platform_store.py:795-820 | Under such a lease a fence of its owner, and of nobody else, holds exactly until it expires |
| LedgerRuns.FencedCommitIsInTime | toto_gateway/benchmarking/platform_store.py:795-820 | A fenced commit that takes effect was read while its own operation was running under its unexpired lease |
| AliasTimeline.HistoryIsGapFree | toto_gateway/benchmarking/platform_store.py:1235-1309 | In every reachable state each key's decisions are strictly ordered, each closed when the next was made, the last one open, and all name stored identities |
| AliasTimeline.BatchRefusedIff | toto_gateway/benchmarking/platform_store.py:1235-1256 | A batch of decisions is refused exactly when one of them fails its checks in the table as those before it left it |
| AliasTimeline.EnsuredIffConsistent | toto_gateway/benchmarking/platform_store.py:576-606 | A batch of identities is accepted exactly when it contradicts neither the table nor itself |
| AliasTimeline.CurrentIsFirstOpen | toto_gateway/benchmarking/platform_store.py:51-54 | The row the order check reads is the open entry of the key's own history |
| AliasTimeline.ReplacedIffItFits | toto_gateway/benchmarking/platform_store.py:1212-1256 | A manual decision is accepted exactly when it is active, has a new id, names a stored identity and is later than the active decision on its source id |
| IdentifierComponents.Find | toto_gateway/benchmarking/identity.py:238-242 | Path halving terminates at the root although it rewrites the forest, and moves no root |
| IdentifierComponents.Union | toto_gateway/benchmarking/identity.py:244-247 | Joins exactly the two trees and leaves every other root alone |
| IdentifierComponents.Components | toto_gateway/benchmarking/identity.py:225-269 | Returns exactly the classes of offers chained by shared identifiers and equal behaviour that have at least two members, each once, with its first shared identifier |
| IdentifierComponents.ComponentsAreChains | toto_gateway/benchmarking/identity.py:225-269 | Two offers fall into one component exactly when a chain of pairwise links connects them |
| IdentifierComponents.ComponentHasOneBehavior | toto_gateway/benchmarking/identity.py:252-257 | Every component has two members or more, all of one behaviour |
| IdentifierComponents.ComponentIsNamedByTwo | toto_gateway/benchmarking/identity.py:261-269 | The identifier a component is named by is listed by two of its members |
| IdentifierComponents.LabelExists | toto_gateway/benchmarking/identity.py:265-269 | A class of two or more always has an identifier to be named by, so the filter drops none |
| IdentityReconciler.Reconcile | toto_gateway/benchmarking/identity.py:49-147 | Every offer gets the answer of the first stage that has one; exactly the minted identities are created, each described by the first offer it was given to, a provisional one by the last |
| IdentityReconciler.ReconciliationFollowsPermutation | toto_gateway/benchmarking/identity.py:60-147 | Reordering the offers reorders their identities and methods and changes none of them |
| IdentityReconciler.DistinctComponentsGetDistinctIdentities | toto_gateway/benchmarking/identity.py:70-95 | Two different alias-free components never receive one identity |
| IdentityReconciler.MergingIsConservativeIff | toto_gateway/benchmarking/identity.py:70-136 | Offers that share an identity agree on every behaviour dimension, exactly unless one key has two left-alone rows of different behaviour |
| IdentityReconciler.DistinctKeysMergeConservatively | toto_gateway/benchmarking/identity.py:302-316 | Distinct upstream ids are enough for conservative merging |
| IdentityReconciler.RepeatedIdMixesBehavior | toto_gateway/benchmarking/identity.py:122-136 | Any two unidentified rows of one id whose behaviour differs are thrown together |
| IdentityReconciler.MergingCanMixBehavior | toto_gateway/benchmarking/identity.py:122-136 | A concrete discovery of one id at two quantizations that is thrown together |
| IdentityReconciler.LeftAloneIsProvisional | toto_gateway/benchmarking/identity.py:122-136 | Which offers reach the provisional stage, said of the discovery alone |
| IdentityReconciler.LastApprovalCounts | toto_gateway/benchmarking/identity.py:60-68 | A key is approved exactly by an active decision on it, and of several the last counts |
| OfferNames.OffersAreLinkedIff | toto_gateway/benchmarking/identity.py:228-259 | Two discovered offers are linked exactly when their behaviour is equal and a non-empty canonical or Hugging Face id of one normalises to one of the other |
| OfferNames.SharedIdentifierSharesIdentity | toto_gateway/benchmarking/identity.py:70-95 | Without aliases such offers are assigned one identity, by their provider canonical id |
| OfferNames.SameBehaviorIff | toto_gateway/benchmarking/identity.py:302-312 | Behaviour is equal exactly when release, reasoning variant, quantization, fine-tune and context variant normalise to the same |
| OfferNames.SameFingerprintIff | toto_gateway/benchmarking/identity.py:272-299 | Fingerprints are equal exactly when vendor, family and behaviour are; the display name does not count |
| OfferNames.MatchedByFingerprintIsNamed | toto_gateway/benchmarking/identity.py:315-316 | Only an offer that names a family and a vendor other than unknown is ever matched by its fingerprint |
| OfferNames.SeparatorsBecomeOneDash | toto_gateway/benchmarking/identity.py:346-349 | Two words normalise to both in lower case with one dash, whatever separates them |
| OfferNames.WritingsOfAnIdentifier | toto_gateway/benchmarking/identity.py:352-365 | Case, trailing slashes and the hub address of an identifier do not matter |
| OfferNames.SlashedIdentifier | toto_gateway/benchmarking/identity.py:352-365 | Nor do slashes in front of it |
| OfferNames.LettersLoseTheirCase | toto_gateway/benchmarking/identity.py:346-355 | Case folding takes each capital letter to its small one |
| RefreshPlan.OutcomesOf | toto_gateway/benchmarking/inventory.py:97-104 | Every offer's key has an outcome, and each outcome is the answer of the last offer with that key |
| StickyIdentities.AliasesAreLastDecisions | toto_gateway/benchmarking/identity.py:60-68 | For a sound history the reconciler is told, for each key with a history, exactly the identity that history ends in |
| StickyIdentities.ActiveLatestIsHistoryLatest | toto_gateway/benchmarking/inventory.py:105-113 | Deriving the latest decision from the active aliases equals the query over the whole history |
| RefreshRuns.IdentityIsSticky | toto_gateway/benchmarking/inventory.py:66-130 | Over any sequence of refreshes a key that has a committed decision only ever gets decisions for the same identity |
| RefreshRuns.OneIdentityForEver | toto_gateway/benchmarking/platform.py:425-489 | From an empty history each provider's model id is only ever given one identity |
| RefreshRuns.RunIsSound | toto_gateway/benchmarking/inventory.py:66-130 | Every refresh, however far it got, leaves all histories gap-free and naming stored identities |
| RefreshCommits.OrderCheckNeverFires | toto_gateway/benchmarking/inventory.py:205-224 | Every decision a refresh makes is newer than the active decision it meets in the table |
| RefreshCommits.OnlyTheFenceRefuses | toto_gateway/benchmarking/inventory.py:114-129 | With well-formed discoveries each commit takes effect exactly when its fence still holds |
| RefreshCommits.AnswerExists | toto_gateway/benchmarking/identity.py:70-136 | An offer is only ever given an approved, a known or a newly minted identity |
| RefreshCommits.CreationRefusedIff | toto_gateway/benchmarking/platform_store.py:576-606 | Creating the minted identities is refused exactly when one is already stored with other content, creation time included |
| LostFences.UnrecognisedCreates | toto_gateway/benchmarking/identity.py:122-136 | On the platform path an offer without a usable fingerprint or a partner, whose key has no history, has the key's own identity created |
| LostFences.LostFenceLeavesIdentity | toto_gateway/benchmarking/inventory.py:88-130 | After a fence lost between creating and committing, whatever else was discovered, the identity of an unrecognised key is stored as created and the key has no history |
| LostFences.LostFenceBlocksLaterRefreshes | toto_gateway/benchmarking/inventory.py:88-130 | Over any run after it, every refresh that discovers the key, still unrecognised and described otherwise, is refused at once and stores nothing, and the key never gets a decision |
| LostFences.LostFenceHappens | toto_gateway/benchmarking/inventory.py:88-130 | From empty tables, one provider with one unrecognised model and an operation gone from the ledger reach this |
| AliasFreeRuns.AliasFreeIdentity | toto_gateway/benchmarking/identity.py:70-136 | Without aliases the identity of any offer is its component's, else its fingerprint's, else the key's own, said of the discovery and the known identities |
| AliasFreeRuns.AliasFreeRefreshKeepsIff | toto_gateway/benchmarking/inventory.py:83-87 | Without approved aliases a commit that lists a key ends its history in that identity, and so keeps the key's identity exactly when it is that one |
| AliasFreeRuns.AloneIsKnownOrOwn | toto_gateway/benchmarking/identity.py:97-136 | For a lone offer that is the one identity known under its usable fingerprint, or else the key's own |
| AliasFreeRuns.AliasFreeCommit | toto_gateway/benchmarking/inventory.py:105-129 | Without approved aliases, too, a well-formed commit is refused only by its fence |
| AliasFreeRuns.IdentityMovesWithoutAliases | toto_gateway/benchmarking/inventory.py:66-130 | Two successful refreshes of a service on its own, from empty tables, that end one key's history in two different identities |
| AliasFreeRuns.SomeIdentityMoves | toto_gateway/benchmarking/inventory.py:66-130 | Such a run exists for concrete descriptions and any two clock readings |
| InventoryRefresh.AliasDecisions | toto_gateway/benchmarking/inventory.py:205-253 | One decision per key of the snapshot, from its first offer, stamped later than the latest one known |
| InventoryRefresh.InventoryRefreshService.Refresh | toto_gateway/benchmarking/inventory.py:66-130 | Reconciles against exactly the cached and the given identities and runs the transactions of one refresh up to the first refused one; repeated providers change nothing; the identity cache only holds stored records |
| RefreshedRouting.FullAnswerIsRouted | toto_gateway/benchmarking/inventory.py:155-203 | A committed full answer is routed, offer by offer under its assigned identity, exactly until completion plus staleness |
| RefreshedRouting.OnlyFullAnswersReroute | toto_gateway/benchmarking/inventory.py:132-153 | A failed, partial, foreign or missing answer is recorded but changes no routed row |
| RefreshedRouting.UnansweredDecidesNothing | toto_gateway/benchmarking/inventory.py:132-153 | An adapter that raises or answers for something else is recorded as a failure without offers and decides no alias |
| RefreshedRouting.DecidedJustAfter | toto_gateway/benchmarking/inventory.py:220-223 | A decision is dated by the completion, or a microsecond after the latest one known when that is not over yet |
| RefreshedRouting.RecordedDecision | toto_gateway/benchmarking/inventory.py:214-253 | Each decision names an offer that was listed, its assigned identity, method and confidence, and cites its snapshot |
| RefreshedRouting.RefreshIsTheReviewer | toto_gateway/benchmarking/platform_store.py:1288-1309 | The alias rows a refresh adds name the inventory as reviewer and no organisation |
| RefreshedRouting.ReplacedNamesItsReviewer | toto_gateway/benchmarking/platform_store.py:1288-1309 | A manual decision becomes the newest row and names its own reviewer, or else its actor |
| RefreshedRouting.StoredIffStorable | toto_gateway/benchmarking/platform_store.py:645-666 | A snapshot without decisions and fence is stored exactly when its times, status, pages and offers are consistent and its id is new |
| RefreshedRouting.StoredSnapshotsAreConsistent | toto_gateway/benchmarking/platform_store.py:645-706 | In every reachable state every stored snapshot is consistent, and lists each model once |
| RefreshedRouting.CommitsHaveEvidence | toto_gateway/benchmarking/platform_store.py:726-793 | Every decision of an effective commit cites its snapshot and matches one of its offers |
| OperationRunner.RefreshStatus | toto_gateway/benchmarking/platform.py:449-457 | Succeeded exactly when every provider succeeded, failed exactly when every one failed |
| OperationRunner.Worker.RunRefresh | toto_gateway/benchmarking/platform.py:425-489 | A claimed run is one platform-path refresh that knows exactly the stored identities, ends with its status and no lease, changes no other operation, and is only ok when every commit read the clock before the lease ran out |
| OperationRunner.StoredModelIsRecognised | toto_gateway/benchmarking/platform.py:439-447 | A run that knows the store gives an offer the one stored identity of its usable fingerprint when no alias or shared identifier speaks |
| SnapshotRevisions.LatestIsMaximal | toto_gateway/benchmarking/platform_store.py:1105-1144 | The selected snapshot of a partition is eligible and outranked by no eligible one |
| SnapshotRevisions.LatestIsNewest | toto_gateway/benchmarking/platform_store.py:1105-1144 | The selected snapshot is a complete success of its partition, and none completed later, nor at the same time under a greater id |
| Common.FirstDifferenceDecides | toto_gateway/benchmarking/platform_store.py:1105-1144 | Ids are ordered by the code point at their first difference |
| Common.PrefixComesFirst | toto_gateway/benchmarking/platform_store.py:1105-1144 | and an id comes after each of its proper prefixes |
| SnapshotRevisions.LaterSnapshotTakesOver | toto_gateway/benchmarking/platform_store.py:1126-1144 | An appended complete success that completed after all others of its partition is selected |
| SnapshotRevisions.FullLoadIsNewest | toto_gateway/benchmarking/platform_store.py:1105-1144 | A full load is exactly the offers of the newest snapshots that have not expired |
| SnapshotRevisions.LatestOnlyGrows | toto_gateway/benchmarking/platform_store.py:1126-1144 | Appending snapshots only ever raises the latest of a partition |
| SnapshotRevisions.LatestHasNoABA | toto_gateway/benchmarking/platform.py:705-740 | A partition with the same latest snapshot at two moments had it at every moment between |
| SnapshotRevisions.SnapshotsAreAppendOnly | toto_gateway/benchmarking/platform_store.py:685-706 | Over every run the snapshots are valid, uniquely named and only appended to |
| CandidateIndex.FullLoadIsHolding | toto_gateway/benchmarking/platform_store.py:1105-1124 | A full load returns exactly the rows of the snapshots the latest fresh revisions name |
| CandidateIndex.ConfirmedFetchIsExact | toto_gateway/benchmarking/platform.py:713-731 | When the reread confirms the revisions, what was fetched in between is what those revisions hold |
| CandidateIndex.ConsistencySurvivesAppends | toto_gateway/benchmarking/platform.py:705-740 | Commits by others never make a consistent index inconsistent |
| CandidateIndex.RoutingIndex.Hydrate | toto_gateway/benchmarking/platform.py:690-703 | Leaves a full load, which is the offers of the newest unexpired snapshots, and revisions that name them, unless overtaken |
| CandidateIndex.RoutingIndex.Sync | toto_gateway/benchmarking/platform.py:705-740 | Whatever it publishes equals a full load at a confirming read, and so lists the newest unexpired snapshots; with nothing to do the index already equals one; otherwise nothing changes |
| Pagination.IdentityPage | toto_gateway/benchmarking/platform_store.py:984-1103 | The next matching identities in order after the cursor, all their offers, and whether more remain |
| Pagination.WhatIsListed | toto_gateway/benchmarking/platform_store.py:984-1060 | What availability and a reference admit, said of the offers, the open aliases and the selected providers |
| Pagination.ListedHasItsOffer | toto_gateway/benchmarking/platform_store.py:1020-1103 | Every identity on a page of available or of named models has an offer on that page |
| Pagination.Inspect | toto_gateway/benchmarking/platform.py:346-423 | Refuses bad cursors and limits; a next cursor is given exactly when more remain and points at the last identity shown |
| Pagination.ListAll | toto_gateway/benchmarking/platform.py:346-423 | Following the cursors ends and lists every matching identity once, ascending, with all its offers |
| Cursor.DecodeReturns | toto_gateway/benchmarking/platform.py:760-777 | Decoding an encoding gives back its bytes |
| Cursor.PaddingReturns | toto_gateway/benchmarking/platform.py:760-777 | Stripped padding is put back exactly, and was at most two signs |
| Cursor.CursorReturns | toto_gateway/benchmarking/platform.py:760-777 | A cursor reads back as its id; an empty id is refused |
| Cursor.CursorsDiffer | toto_gateway/benchmarking/platform.py:760-777 | Different positions have different cursors |
| Breaker.CircuitBreaker.Allow | toto_gateway/breaker.py:73-79 | A call may proceed unless the failures since the last success reach the threshold and the reset time has not passed since the latest |
| Breaker.CircuitBreaker.IsOpen | toto_gateway/breaker.py:81-83 | The opposite of allowing at the same instant |
| Breaker.CircuitBreaker.OnSuccess | toto_gateway/breaker.py:85-92 | True exactly when the key was tripped; it no longer is |
| Breaker.CircuitBreaker.OnFailure | toto_gateway/breaker.py:94-105 | True exactly on the failure that trips the key |
| Breaker.CircuitBreaker.Snapshot | toto_gateway/breaker.py:107-126 | Lists exactly the touched keys, each as allowing would decide at that instant, with the rounded wait left and the failure count |
| Breaker.AdvertisedWaitIsNear | toto_gateway/breaker.py:107-126 | Half a hundredth of a second more than the advertised wait is enough for the key to be allowed again, half a hundredth less is not |
| Breaker.EdgesAlternate | toto_gateway/breaker.py:85-105 | The true answers of failure and success strictly alternate, and an odd number of them means tripped |
| Breaker.AskingListsTheKey | toto_gateway/breaker.py:107-126 | Asking about a key without failures already lists it |
| Breaker.OpensAtTheThreshold | toto_gateway/breaker.py:73-105 | Since the last success fewer failures than the threshold stop no call, and as many stop it exactly until the reset time has passed since the latest |
| Dispatch.Fallbacks | toto_gateway/resilience.py:53-69 | The ids of the non-fake entries of the same residency, in catalog order, without the model itself |
| Dispatch.Candidates | toto_gateway/gateway.py:849-856 | The planned entry, then exactly what the eligible ids resolve to, in catalog order |
| Dispatch.ResidencyKeptIff | toto_gateway/gateway.py:850-856 | Every candidate has the planned residency exactly when every eligible entry's id resolves to one that has |
| Dispatch.NoFakeFallbackIff | toto_gateway/gateway.py:850-856 | No fallback is fake exactly when no eligible entry's id resolves to a fake one |
| Dispatch.UniqueIdsResolve | toto_gateway/resilience.py:53-69 | Unique ids, with the planned entry as listed, are enough for both |
| Dispatch.RepeatedIdCrossesResidency | toto_gateway/gateway.py:850-856 | With a repeated id a fallback can resolve to an entry of another residency |
| Dispatch.BackoffGrows | toto_gateway/resilience.py:100-107 | More failures never shorten the wait, jitter and advertised waits aside |
| Dispatch.BackoffDoubles | toto_gateway/resilience.py:100-107 | Without an advertised wait the first one is base and jitter, and under the cap the part above the jitter doubles each time |
| Dispatch.GetIsFirst | toto_gateway/gateway.py:850-856 | Resolving an id gives its first catalog entry, or nothing exactly when there is none |
| Dispatch.TriedAgain | toto_gateway/gateway.py:897-943 | A transient failure with no more than the allowed retries before it is followed by another call to the same candidate unless the breaker refuses it, and a reply to that ends the request served |
| Dispatch.Gateway.TryCandidate | toto_gateway/gateway.py:897-943 | At most retries plus one calls, each but the last a transient failure, each admitted by the breaker; a last transient failure only after retries plus one calls or when the breaker refused afterwards; each wait is the backoff of its attempt; the answer is the last call's outcome |
| Dispatch.Gateway.CheckCandidate | toto_gateway/gateway.py:884-895 | A candidate is skipped exactly when the breaker does not admit its provider or a peer reports it open |
| Dispatch.Gateway.Visit | toto_gateway/gateway.py:860-957 | One trace per visited candidate, telling what became of its last call, and the verdict that belongs to it |
| Dispatch.Gateway.Complete | toto_gateway/gateway.py:847-958 | One trace per visited candidate in order, each telling its last call's outcome, the last ok exactly when served; calls, checks and breaker reports are those the gateway really made; per candidate at most retries plus one, that many on transient failures unless the breaker refuses, none after another failure, and one in all when not resilient; a fresh gateway whose first call fails transiently and whose second replies serves the request; skipped exactly by its check; only the planned residency when ids resolve within it; the exception raised is the last candidate's or, when that one was skipped, the first reason; null exactly without attempts |
| Streaming.StreamDriver.Consume | toto_gateway/gateway.py:1113-1143 | What one attempt sends, its text and its usage, up to its end or the client's |
| Streaming.StreamDriver.Drive | toto_gateway/gateway.py:1100-1145 | Earlier attempts gave nothing; the client sees a prefix of one attempt; the permit is held on leaving unless cancelled between attempts |
| Streaming.StreamDriver.Stream | toto_gateway/gateway.py:1072-1178 | One trace, whose text is that of the sent chunks in order, and the permit back exactly unless a closing hook raises while it is held; only a provider stream is reopened, after a transient failure before the first chunk, and given up on one only after all retries |
| Streaming.StreamIsDetermined | toto_gateway/gateway.py:1111-1145 | What is sent and how the stream ends is determined by what the upstreams do |
| Streaming.ExitTells | toto_gateway/gateway.py:1100-1160 | A stream is recorded completed exactly when all was taken and the client stayed, gone exactly at the chunk it was sent last, stalled or failed only at such a pull |
| Streaming.TextIsSent | toto_gateway/gateway.py:1113-1143 | The recorded text is that of the sent chunks without usage, in order |
| ExactCache.ExactCache.Get | toto_gateway/cache/exact.py:91-112 | Answers from the first level, else from the second, and touches what it finds |
| ExactCache.ExactCache.Put | toto_gateway/cache/exact.py:114-133 | Stores through both levels within the capacity, and raises before writing when there is no room at all |
| ExactCache.RunIsWellKept | toto_gateway/cache/exact.py:127-133 | Over any run the first level stays within its capacity and its order lists exactly its keys |
| ExactCache.CoherentIff | toto_gateway/cache/exact.py:114-133 | An operation keeps the levels coherent exactly when it is not a put of another value over a held key |
| ExactCache.RunAgreesWithMap | toto_gateway/cache/exact.py:91-133 | Over any run without such a put every lookup answers what an unbounded map would |
| ExactCache.StalePutIsSeen | toto_gateway/cache/exact.py:127-133 | After such a put the next lookup answers the old value |
| ExactCache.RunAnswersIff | toto_gateway/cache/exact.py:91-133 | With the second level, every lookup at every point of a run answers what an unbounded map would exactly when the run has no such put |
| ExactCache.OrderIsRecency | toto_gateway/cache/exact.py:91-133 | The first level holds exactly the most recently touched distinct keys, in that order |
| Percentile.PercentileRank | toto_gateway/benchmarking/aggregate.py:33-41 | The share of the population below the value plus half its ties, or a half without a population |
| Percentile.RanksSumToHalf | toto_gateway/benchmarking/aggregate.py:33-41 | The ranks of any population add up to half its size |
| Percentile.RankInRange | toto_gateway/benchmarking/aggregate.py:33-41 | A member's rank is strictly between nought and one |
| Percentile.RankIsMonotone | toto_gateway/benchmarking/aggregate.py:33-41 | Ranks follow the values, strictly between members |
| Percentile.RankIgnoresScale | toto_gateway/benchmarking/aggregate.py:33-41 | No strictly increasing rescaling moves a rank |
| Percentile.RankIgnoresOrder | toto_gateway/benchmarking/aggregate.py:33-41 | A rank does not depend on the order of the population |
| Aggregate.AggregationIgnoresOrder | toto_gateway/benchmarking/aggregate.py:55-103 | The scores do not depend on the order of the facts |
| Aggregate.ScoresAreFractions | toto_gateway/benchmarking/aggregate.py:44-103 | Every emitted score, legacy keys included, lies between nought and one |
| Aggregate.CategoriesHaveEvidence | toto_gateway/benchmarking/aggregate.py:87-93 | A category exists only where a scored fact of a catalogued benchmark backs it |
| ScoreValues.OneFactIsTheScore | toto_gateway/benchmarking/aggregate.py:44-103 | A model known by one fraction, percentage or index only scores that, cut off at nought and one, in its category and in general, and nothing else |
| ScoreValues.HigherRatedScoresHigher | toto_gateway/benchmarking/aggregate.py:33-103 | Of two models known by one rating each, in one benchmark by one source, the higher rated scores strictly higher |
| ScoreValues.TwoFactsAverage | toto_gateway/benchmarking/aggregate.py:72-103 | Two default runs, two sources, two benchmarks and two categories average, each counted for what it is |
| ScoreValues.TiersScoreTheMedian | toto_gateway/benchmarking/aggregate.py:79-84 | Without a default run three tiers score the middle one |
| ScoreValues.SkippedFactChangesNothing | toto_gateway/benchmarking/aggregate.py:55-91 | An operational or unknown unit, an uncatalogued benchmark, or a fact not redistributable where that matters changes no score of anyone |
| ScoreValues.DefaultRunHidesTiers | toto_gateway/benchmarking/aggregate.py:79-84 | While a default run is there, a tiered fraction, percentage or index of its model, benchmark and source changes no score |
| ScoreRaises.RaisingIsSafeIff | toto_gateway/benchmarking/aggregate.py:44-103 | For which shapes of evidence raising a fact lowers no score of its model whatever the values are, and that every other shape has values for which it does |
| ScoreRaises.SafeRaiseLowersNothing | toto_gateway/benchmarking/aggregate.py:44-103 | In such a shape a raise keeps the categories and lowers no score |
| ScoreRaises.TieredRaiseLowersIff | toto_gateway/benchmarking/aggregate.py:72-86 | Beside default runs raising a tiered rating lowers a score exactly when it passes or meets a default rating of its group |
| Percentile.TogetherTheyRise | toto_gateway/benchmarking/aggregate.py:33-41 | Raising some members of a population never lowers the sum of their ranks |
| CacheSavings.Report | toto_gateway/metering.py:212-239 | One line per model and lane, and totals that are the exact sums of the savings, premiums, nets and tokens |
| CacheSavings.PlainBill | toto_gateway/pricing.py:9-26 | A call without cached tokens is billed its tokens at the two prices per thousand, to six decimals |
| CacheSavings.RoundsToSixDecimals | toto_gateway/pricing.py:26 | Rounding leaves a whole number of micro-dollars within half a one, the even one from the middle |
| CacheSavings.UnknownPriceSavesNothing | toto_gateway/metering.py:217-224 | A model without a known price is reported with nought |
| CacheSavings.DiscountOfOneCall | toto_gateway/pricing.py:18-26 | For a plausible call, full price minus cost is the read saving minus the write premium |
| CacheSavings.LineMatchesBills | toto_gateway/metering.py:212-239 | A line's net is full price minus bills within half a micro-dollar a call and one more |
| CacheSavings.TotalMatchesBills | toto_gateway/metering.py:212-239 | The total's net is full price minus bills within half a micro-dollar a call and one a line |
| CacheSavings.LineIsOffByTheCuts | toto_gateway/metering.py:212-239 | For any recorded counts a line's net is full price minus bills plus the saving on what the bills cut, within the same rounding |
| CacheSavings.TotalIsOffByTheCuts | toto_gateway/metering.py:212-239 | The same of the total |
| CacheSavings.ReportIsOffByTheCuts | toto_gateway/pricing.py:18-26 | For any call the reported saving is the true one plus the saving on the reads and writes the bill cuts off |
| CacheSavings.ReportedRightlyIff | toto_gateway/pricing.py:18-26 | A call is reported right at every price exactly when the bill cuts nothing, that is when its usage is plausible |
| CacheSavings.ExcessReadsOverstate | toto_gateway/pricing.py:18-26 | Reads beyond the prompt always overstate the saving at a positive price with a read discount |
| RateLimit.RateLimiter.CheckRateLimit | toto_gateway/db.py:142-152 | Within the limit exactly when the calls of its window since the last deletion, this one included, do not exceed it |
| RateLimit.WindowHoldsNow | toto_gateway/db.py:142-152 | A window starts at a multiple of its length and holds the reading it was taken from |
| RateLimit.RateLimiter.PruneWindows | toto_gateway/runs/events.py:147-162 | Deletes exactly the counters of the windows that began before the truncated cutoff |
| RateLimit.TruncatedIsNext | toto_gateway/runs/events.py:147-162 | The cutoff is truncated towards nought |
| RateLimit.WindowAdmits | toto_gateway/db.py:142-152 | What a window admits is exactly the spent limit at each deletion of its counter plus what is spent since |
| RateLimit.WindowAdmitsExactly | toto_gateway/db.py:142-152 | As long as no deletion precedes a later call of it, a window admits exactly its first calls up to the limit |
| RateLimit.OpenWindowsSurviveIff | toto_gateway/runs/events.py:147-162 | With a clock that does not step back no deletion precedes a later call of its window exactly when retention plus one second is at least the window |
| RateLimit.OneDayIsEnough | toto_gateway/runs/events.py:147-162 | For windows up to a day that is one whole day of retention or more |
| RateLimit.AnyIntervalAdmitsTwiceTheLimit | toto_gateway/db.py:142-152 | Any half-open interval of a window's length admits at most twice the limit, whatever order the readings come in |
| RateLimit.TwiceTheLimitIsReached | toto_gateway/db.py:142-152 | The interval bound is tight: a concrete run reaches it |
| RateLimit.ShortRetentionForgets | toto_gateway/runs/events.py:147-162 | With any shorter retention a timely run admits twice the limit in one window |

## Left out

* SQL text, dialects, connection pools, migrations and the network: each transaction is one atomic step.
* `update_inventory_refresh_operation` (`toto_gateway/benchmarking/platform_store.py:421-440`): it writes any status
  without a lease check and the platform never calls it, so it is not a step of the runs.
* The heartbeat and the table of running refreshes in `toto_gateway/benchmarking/platform.py:549-607`: renewals are steps of the runs,
  but asyncio tasks and their cancellation are not modelled.
- OperationRunner.Worker.RunRefresh: one worker's run without interleaving; interleaved workers are the runs of `LedgerRuns`.
- Pagination.Inspect: provider states, attempts and the revision hash of the result are not modelled.
- Cursor.CursorReturns: the JSON layer is a pair of functions of which only reading back is assumed; a cursor with a character outside the alphabet counts as invalid, where the lenient base64 reader skips it.
- IdentityReconciler.Reconcile: every new identity carries some clock reading, but which one is left open; case folding is that of ASCII.
- Dispatch.Gateway.Complete: accounting, caching and span sinks do not raise; a model the registry does not know ends the request before its trace is written, which is what the gateway does.
- Streaming.StreamDriver.Stream: starts after the upstream was first opened; opening it raises outside the `try` block, where the permit is kept.
- Aggregate.AggregationIgnoresOrder: the dictionaries filled in loops are lists of keys in order of first occurrence, computed by functions.
- StickyIdentities.ActiveLatestIsHistoryLatest: the tie-break by alias id is left out, since decision times of one key never tie.
* The order of rows inside the routing catalog, `CandidateCatalog` resolution and eligibility, planning and smart
  routing, discovery adapters, hint inference from names, Redis coordination, budgets, the auth plane.
* The bound on the number of rows a reconciliation context or an alias lookup may read.
* Evidence of an alias decision beyond its snapshot id, and the descriptive columns of offers and snapshots.
* Float rounding beyond the six-decimal rounding of bills and reports.
