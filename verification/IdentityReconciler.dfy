/**
 * `IdentityReconciler.reconcile`: each offer takes an identity from an approved alias, from its
 * component, from its exact fingerprint, or a provisional one of its own, in that order.
 * The reference definition gives each stage as a function of all the offers, independent of any order.
 */
module IdentityReconciler {
  import opened Common
  import opened Domain
  import opened IdentifierComponents

  /** What reconciliation reads of a discovered offer. */
  datatype Item = Item(key: OfferKey, identifiers: seq<string>, fingerprint: Fingerprint, description: Description)

  function ItemOf(offer: DiscoveredOffer): Item {
    Item(KeyOf(offer), IdentifiersOf(offer), FingerprintOf(offer.hint.description), offer.hint.description)
  }

  function ItemsOf(offers: seq<DiscoveredOffer>): (items: seq<Item>)
    ensures |items| == |offers| && Plausible(items)
  {
    seq(|offers|, i requires 0 <= i < |offers| => ItemOf(offers[i]))
  }

  predicate Plausible(items: seq<Item>) {
    forall i :: 0 <= i < |items| ==> |items[i].identifiers| <= 2
  }

  function Nodes(items: seq<Item>): (nodes: seq<Node>)
    ensures |nodes| == |items|
  {
    seq(|items|, i requires 0 <= i < |items| => Node(items[i].identifiers, items[i].fingerprint.behavior))
  }

  const APPROVED_ALIAS: string := "approved_alias"
  const PROVIDER_CANONICAL_ID: string := "provider_canonical_id"
  const EXACT_FINGERPRINT: string := "exact_fingerprint"
  const PROVISIONAL: string := "provisional"

  function Confidence(how: string): real {
    if how == APPROVED_ALIAS then 1.0
    else if how == PROVIDER_CANONICAL_ID then 0.98
    else if how == EXACT_FINGERPRINT then 0.95
    else 0.4
  }

  /** `minted` marks an identity this pass creates rather than finds. */
  datatype Assignment = Assignment(identityId: IdentityId, how: string, minted: bool)

  datatype Known = Known(identityId: IdentityId, fingerprint: Fingerprint)

  // ----- Reference definition, stage by stage -----

  type Aliases = map<OfferKey, IdentityId>

  ghost function ComponentTargets(items: seq<Item>, aliases: Aliases, i: nat): set<IdentityId> {
    set j | 0 <= j < |items| && j in ClassOf(Nodes(items), i) && items[j].key in aliases :: aliases[items[j].key]
  }

  ghost function LabelOf(items: seq<Item>, i: nat): string {
    if exists s :: IsLabel(Nodes(items), ClassOf(Nodes(items), i), s)
    then var s :| IsLabel(Nodes(items), ClassOf(Nodes(items), i), s); s
    else ""
  }

  ghost function Only(targets: set<IdentityId>): IdentityId
    requires |targets| == 1
  {
    var t :| t in targets; t
  }

  /** Stages one and two. */
  ghost function ByComponent(items: seq<Item>, aliases: Aliases, i: nat): Option<Assignment>
    requires i < |items|
  {
    var targets := ComponentTargets(items, aliases, i);
    if items[i].key in aliases then Some(Assignment(aliases[items[i].key], APPROVED_ALIAS, false))
    else if !HasPartner(Nodes(items), i) || |targets| > 1 then None
    else if |targets| == 1 then Some(Assignment(Only(targets), PROVIDER_CANONICAL_ID, false))
    else Some(Assignment(FromIdentifier(LabelOf(items, i), items[i].fingerprint.behavior), PROVIDER_CANONICAL_ID, true))
  }

  ghost function FingerprintTargets(items: seq<Item>, known: seq<Known>, aliases: Aliases, i: nat): set<IdentityId>
    requires i < |items|
  {
    (set j | 0 <= j < |items| && items[j].fingerprint == items[i].fingerprint && ByComponent(items, aliases, j).Some?
       :: ByComponent(items, aliases, j).value.identityId)
    + set k | k in known && k.fingerprint == items[i].fingerprint :: k.identityId
  }

  ghost predicate HasUnresolvedTwin(items: seq<Item>, aliases: Aliases, i: nat)
    requires i < |items|
  {
    exists j :: 0 <= j < |items| && j != i && items[j].fingerprint == items[i].fingerprint
                && ByComponent(items, aliases, j).None?
  }

  /** Stages one to three. */
  ghost function ByFingerprint(items: seq<Item>, known: seq<Known>, aliases: Aliases, i: nat): Option<Assignment>
    requires i < |items|
  {
    var targets := FingerprintTargets(items, known, aliases, i);
    if ByComponent(items, aliases, i).Some? then ByComponent(items, aliases, i)
    else if !Usable(items[i].fingerprint) then None
    else if |targets| == 1 then Some(Assignment(Only(targets), EXACT_FINGERPRINT, false))
    else if targets == {} && HasUnresolvedTwin(items, aliases, i)
    then Some(Assignment(FromFingerprint(items[i].fingerprint), EXACT_FINGERPRINT, true))
    else None
  }

  ghost function Assigned(items: seq<Item>, known: seq<Known>, aliases: Aliases, i: nat): Assignment
    requires i < |items|
  {
    match ByFingerprint(items, known, aliases, i)
    case Some(a) => a
    case None => Assignment(FromOffer(items[i].key.provider, items[i].key.upstreamModelId), PROVISIONAL, true)
  }

  // ----- The order of the offers does not matter -----

  /** `order` lists every position of a sequence of length `n` once. */
  ghost predicate IsPermutation(order: seq<nat>, n: nat) {
    |order| == n
    && (forall k :: 0 <= k < n ==> order[k] < n)
    && (forall k, l :: 0 <= k < l < n ==> order[k] != order[l])
    && forall i :: 0 <= i < n ==> i in order
  }

  lemma PlaceOf(order: seq<nat>, n: nat, i: nat) returns (k: nat)
    requires IsPermutation(order, n) && i < n
    ensures k < n && order[k] == i
  {
    assert i in order;
    k :| k < n && order[k] == i;
  }

  function Permuted<T>(s: seq<T>, order: seq<nat>): (p: seq<T>)
    requires |order| == |s| && forall k :: 0 <= k < |order| ==> order[k] < |s|
    ensures |p| == |s|
  {
    seq(|s|, k requires 0 <= k < |s| => s[order[k]])
  }

  lemma MovedChainIsChain(nodes: seq<Node>, order: seq<nat>, k: nat, l: nat)
    requires IsPermutation(order, |nodes|) && k < |nodes| && l < |nodes|
    requires Connected(Permuted(nodes, order), k, l)
    ensures Connected(nodes, order[k], order[l])
  {
    var moved := Permuted(nodes, order);
    var path :| IsChain(moved, path) && path[0] == k && path[|path| - 1] == l;
    var image := seq(|path|, m requires 0 <= m < |path| => order[path[m]]);
    forall m | 0 <= m < |image| - 1 ensures Linked(nodes, image[m], image[m + 1]) {
      assert Linked(moved, path[m], path[m + 1]);
    }
    assert IsChain(nodes, image);
  }

  lemma ChainMoves(nodes: seq<Node>, order: seq<nat>, k: nat, l: nat)
    requires IsPermutation(order, |nodes|) && k < |nodes| && l < |nodes|
    requires Connected(nodes, order[k], order[l])
    ensures Connected(Permuted(nodes, order), k, l)
  {
    var moved := Permuted(nodes, order);
    var path :| IsChain(nodes, path) && path[0] == order[k] && path[|path| - 1] == order[l];
    var image := Preimages(order, path);
    assert order[image[0]] == order[k] && order[image[|path| - 1]] == order[l];
    forall m | 0 <= m < |image| - 1 ensures Linked(moved, image[m], image[m + 1]) {
      assert Linked(nodes, path[m], path[m + 1]);
    }
    assert IsChain(moved, image);
  }

  lemma ChainFollowsPermutation(nodes: seq<Node>, order: seq<nat>, k: nat, l: nat)
    requires IsPermutation(order, |nodes|) && k < |nodes| && l < |nodes|
    ensures Connected(Permuted(nodes, order), k, l) <==> Connected(nodes, order[k], order[l])
  {
    if Connected(Permuted(nodes, order), k, l) {
      MovedChainIsChain(nodes, order, k, l);
    } else if Connected(nodes, order[k], order[l]) {
      ChainMoves(nodes, order, k, l);
    }
  }

  ghost function Preimages(order: seq<nat>, path: seq<nat>): (image: seq<nat>)
    requires forall m :: 0 <= m < |path| ==> path[m] in order
    ensures |image| == |path|
    ensures forall m :: 0 <= m < |path| ==> image[m] < |order| && order[image[m]] == path[m]
  {
    if path == [] then []
    else
      assert path[0] in order;
      var k: nat :| k < |order| && order[k] == path[0];
      [k] + Preimages(order, path[1..])
  }

  ghost predicate Moved(items: seq<Item>, moved: seq<Item>, order: seq<nat>) {
    IsPermutation(order, |items|) && moved == Permuted(items, order)
  }

  lemma ClassFollowsPermutation(items: seq<Item>, moved: seq<Item>, order: seq<nat>, k: nat, l: nat)
    requires Moved(items, moved, order) && k < |items| && l < |items|
    ensures l in ClassOf(Nodes(moved), k) <==> order[l] in ClassOf(Nodes(items), order[k])
  {
    assert Nodes(moved) == Permuted(Nodes(items), order);
    ChainFollowsPermutation(Nodes(items), order, k, l);
  }

  lemma PartnerFollowsPermutation(items: seq<Item>, moved: seq<Item>, order: seq<nat>, k: nat)
    requires Moved(items, moved, order) && k < |items|
    ensures HasPartner(Nodes(moved), k) <==> HasPartner(Nodes(items), order[k])
  {
    forall l | 0 <= l < |items|
      ensures l in ClassOf(Nodes(moved), k) <==> order[l] in ClassOf(Nodes(items), order[k])
    {
      ClassFollowsPermutation(items, moved, order, k, l);
    }
    if HasPartner(Nodes(items), order[k]) {
      var j :| j in ClassOf(Nodes(items), order[k]) && j != order[k];
      var l := PlaceOf(order, |items|, j);
      assert l in ClassOf(Nodes(moved), k) && l != k;
    }
  }

  lemma TargetsFollowPermutation(items: seq<Item>, moved: seq<Item>, order: seq<nat>, aliases: Aliases, k: nat)
    requires Moved(items, moved, order) && k < |items|
    ensures ComponentTargets(moved, aliases, k) == ComponentTargets(items, aliases, order[k])
  {
    forall l | 0 <= l < |items|
      ensures l in ClassOf(Nodes(moved), k) <==> order[l] in ClassOf(Nodes(items), order[k])
    {
      ClassFollowsPermutation(items, moved, order, k, l);
    }
    var here, there := ComponentTargets(moved, aliases, k), ComponentTargets(items, aliases, order[k]);
    forall t | t in there ensures t in here {
      var j :| 0 <= j < |items| && j in ClassOf(Nodes(items), order[k]) && items[j].key in aliases
               && aliases[items[j].key] == t;
      var l := PlaceOf(order, |items|, j);
      assert moved[l] == items[j] && l in ClassOf(Nodes(moved), k);
    }
    forall t | t in here ensures t in there {
      var l :| 0 <= l < |items| && l in ClassOf(Nodes(moved), k) && moved[l].key in aliases
               && aliases[moved[l].key] == t;
      assert moved[l] == items[order[l]];
    }
  }

  lemma SharingFollowsPermutation(nodes: seq<Node>, order: seq<nat>, k: nat, s: string)
    requires IsPermutation(order, |nodes|) && k < |nodes|
    ensures SharesIdentifier(Permuted(nodes, order), k, s) <==> SharesIdentifier(nodes, order[k], s)
  {
    var moved := Permuted(nodes, order);
    if j :| 0 <= j < |nodes| && j != order[k] && s in nodes[j].identifiers && nodes[order[k]].behavior == nodes[j].behavior {
      var l := PlaceOf(order, |nodes|, j);
      assert moved[l] == nodes[j];
    }
  }

  lemma LabelsFollowPermutation(items: seq<Item>, moved: seq<Item>, order: seq<nat>, k: nat, s: string)
    requires Moved(items, moved, order) && k < |items|
    ensures InLabels(Nodes(moved), ClassOf(Nodes(moved), k), s) <==> InLabels(Nodes(items), ClassOf(Nodes(items), order[k]), s)
  {
    assert Nodes(moved) == Permuted(Nodes(items), order);
    forall l: nat | l < |items|
      ensures l in ClassOf(Nodes(moved), k) <==> order[l] in ClassOf(Nodes(items), order[k])
      ensures SharesIdentifier(Nodes(moved), l, s) <==> SharesIdentifier(Nodes(items), order[l], s)
    {
      ClassFollowsPermutation(items, moved, order, k, l);
      SharingFollowsPermutation(Nodes(items), order, l, s);
    }
    if InLabels(Nodes(items), ClassOf(Nodes(items), order[k]), s) {
      var i :| i in ClassOf(Nodes(items), order[k]) && i < |items| && SharesIdentifier(Nodes(items), i, s);
      var l := PlaceOf(order, |items|, i);
      assert l in ClassOf(Nodes(moved), k) && SharesIdentifier(Nodes(moved), l, s);
    }
  }

  lemma LabelFollowsPermutation(items: seq<Item>, moved: seq<Item>, order: seq<nat>, k: nat)
    requires Moved(items, moved, order) && k < |items|
    ensures LabelOf(moved, k) == LabelOf(items, order[k])
  {
    var here, there := ClassOf(Nodes(moved), k), ClassOf(Nodes(items), order[k]);
    forall s ensures InLabels(Nodes(moved), here, s) <==> InLabels(Nodes(items), there, s) {
      LabelsFollowPermutation(items, moved, order, k, s);
    }
    forall s ensures IsLabel(Nodes(moved), here, s) <==> IsLabel(Nodes(items), there, s) {
    }
    forall s, t | IsLabel(Nodes(items), there, s) && IsLabel(Nodes(items), there, t) ensures s == t {
      LabelIsUnique(Nodes(items), there, s, t);
    }
  }

  lemma ComponentStageFollowsPermutation(
    items: seq<Item>, moved: seq<Item>, order: seq<nat>, aliases: Aliases, k: nat)
    requires Moved(items, moved, order) && k < |items|
    ensures ByComponent(moved, aliases, k) == ByComponent(items, aliases, order[k])
  {
    PartnerFollowsPermutation(items, moved, order, k);
    TargetsFollowPermutation(items, moved, order, aliases, k);
    LabelFollowsPermutation(items, moved, order, k);
  }

  lemma FingerprintTargetsFollowPermutation(
    items: seq<Item>, moved: seq<Item>, order: seq<nat>, known: seq<Known>, aliases: Aliases, k: nat)
    requires Moved(items, moved, order) && k < |items|
    ensures FingerprintTargets(moved, known, aliases, k) == FingerprintTargets(items, known, aliases, order[k])
  {
    forall l | 0 <= l < |items| ensures ByComponent(moved, aliases, l) == ByComponent(items, aliases, order[l]) {
      ComponentStageFollowsPermutation(items, moved, order, aliases, l);
    }
    var here, there := FingerprintTargets(moved, known, aliases, k), FingerprintTargets(items, known, aliases, order[k]);
    forall t | t in there ensures t in here {
      if j: nat :| j < |items| && items[j].fingerprint == items[order[k]].fingerprint
                   && ByComponent(items, aliases, j).Some? && ByComponent(items, aliases, j).value.identityId == t {
        var l := PlaceOf(order, |items|, j);
        assert moved[l] == items[j];
      }
    }
  }

  lemma TwinsFollowPermutation(items: seq<Item>, moved: seq<Item>, order: seq<nat>, aliases: Aliases, k: nat)
    requires Moved(items, moved, order) && k < |items|
    ensures HasUnresolvedTwin(moved, aliases, k) <==> HasUnresolvedTwin(items, aliases, order[k])
  {
    forall l: nat | l < |items| ensures ByComponent(moved, aliases, l) == ByComponent(items, aliases, order[l]) {
      ComponentStageFollowsPermutation(items, moved, order, aliases, l);
    }
    if j: nat :| j < |items| && j != order[k] && items[j].fingerprint == items[order[k]].fingerprint
                 && ByComponent(items, aliases, j).None? {
      var l := PlaceOf(order, |items|, j);
      assert moved[l] == items[j];
    }
  }

  /** Reordering the offers reorders the assigned identities and methods, and changes none of them. */
  lemma ReconciliationFollowsPermutation(
    items: seq<Item>, order: seq<nat>, known: seq<Known>, aliases: Aliases, k: nat)
    requires IsPermutation(order, |items|) && k < |items|
    ensures Assigned(Permuted(items, order), known, aliases, k) == Assigned(items, known, aliases, order[k])
  {
    var moved := Permuted(items, order);
    ComponentStageFollowsPermutation(items, moved, order, aliases, k);
    FingerprintTargetsFollowPermutation(items, moved, order, known, aliases, k);
    TwinsFollowPermutation(items, moved, order, aliases, k);
  }

  // ----- What sharing an identity means -----

  lemma TwoTargets(targets: set<IdentityId>, t: IdentityId)
    requires t in targets
    ensures |targets| == 1 <==> targets == {t}
    ensures |targets| >= 1
  {
    assert targets == (targets - {t}) + {t};
  }

  lemma ApprovedOfferIsTarget(items: seq<Item>, aliases: Aliases, i: nat)
    requires i < |items|
    ensures items[i].key in aliases ==> aliases[items[i].key] in ComponentTargets(items, aliases, i)
  {
    ConnectedReflexive(Nodes(items), i);
  }

  /** Two alias-free components that get the same identity are the same component. */
  lemma DistinctComponentsGetDistinctIdentities(items: seq<Item>, aliases: Aliases, i: nat, j: nat)
    requires i < |items| && j < |items|
    requires HasPartner(Nodes(items), i) && ComponentTargets(items, aliases, i) == {}
    requires HasPartner(Nodes(items), j) && ComponentTargets(items, aliases, j) == {}
    requires ByComponent(items, aliases, i).Some? && ByComponent(items, aliases, j).Some?
    requires ByComponent(items, aliases, i).value.identityId == ByComponent(items, aliases, j).value.identityId
    ensures ClassOf(Nodes(items), i) == ClassOf(Nodes(items), j)
  {
    var nodes := Nodes(items);
    ApprovedOfferIsTarget(items, aliases, i);
    ApprovedOfferIsTarget(items, aliases, j);
    LabelExists(nodes, i);
    LabelExists(nodes, j);
    DistinctClassesDistinctLabels(nodes, i, j, LabelOf(items, i));
  }

  /** The identities minted or reached by a pass that starts with nothing known or approved. */
  ghost predicate Describes(id: IdentityId, item: Item) {
    match id
    case FromIdentifier(_, behavior) => behavior == item.fingerprint.behavior
    case FromFingerprint(fingerprint) => fingerprint == item.fingerprint
    case FromOffer(provider, upstreamModelId) => OfferKey(provider, upstreamModelId) == item.key
    case Named(_) => false
  }

  lemma ComponentDescribes(items: seq<Item>, i: nat)
    requires i < |items| && ByComponent(items, map[], i).Some?
    ensures ByComponent(items, map[], i).value.identityId == FromIdentifier(LabelOf(items, i), items[i].fingerprint.behavior)
  {
    assert ComponentTargets(items, map[], i) == {};
  }

  lemma AssignedDescribes(items: seq<Item>, i: nat)
    requires i < |items|
    ensures Describes(Assigned(items, [], map[], i).identityId, items[i])
    ensures Assigned(items, [], map[], i).identityId.FromOffer? <==> ByFingerprint(items, [], map[], i).None?
  {
    var targets := FingerprintTargets(items, [], map[], i);
    if ByComponent(items, map[], i).Some? {
      ComponentDescribes(items, i);
    } else if |targets| == 1 {
      var j :| 0 <= j < |items| && items[j].fingerprint == items[i].fingerprint && ByComponent(items, map[], j).Some?
               && ByComponent(items, map[], j).value.identityId == Only(targets);
      ComponentDescribes(items, j);
    }
  }

  /**
   * The guard of the provisional stage, for a pass with nothing known or approved: no partner, and no
   * single identity or second unresolved offer to take from its fingerprint.
   */
  ghost predicate LeftAlone(items: seq<Item>, i: nat)
    requires i < |items|
  {
    !HasPartner(Nodes(items), i)
    && (!Usable(items[i].fingerprint)
        || |PartneredIdentities(items, i)| > 1
        || (PartneredIdentities(items, i) == {} && !HasUnpartneredTwin(items, i)))
  }

  ghost function PartneredIdentities(items: seq<Item>, i: nat): set<IdentityId>
    requires i < |items|
  {
    set j | 0 <= j < |items| && items[j].fingerprint == items[i].fingerprint && HasPartner(Nodes(items), j)
      :: FromIdentifier(LabelOf(items, j), items[i].fingerprint.behavior)
  }

  ghost predicate HasUnpartneredTwin(items: seq<Item>, i: nat)
    requires i < |items|
  {
    exists j :: 0 <= j < |items| && j != i && items[j].fingerprint == items[i].fingerprint && !HasPartner(Nodes(items), j)
  }

  lemma LeftAloneIsProvisional(items: seq<Item>, i: nat)
    requires i < |items|
    ensures LeftAlone(items, i) <==> ByFingerprint(items, [], map[], i).None?
  {
    assert forall j :: ComponentTargets(items, map[], j) == {};
    assert forall j :: 0 <= j < |items| ==> (ByComponent(items, map[], j).Some? <==> HasPartner(Nodes(items), j));
    var targets := FingerprintTargets(items, [], map[], i);
    assert targets == PartneredIdentities(items, i);
  }

  /** Offers that share an identity agree on every behaviour-changing dimension. */
  ghost predicate Conservative(items: seq<Item>) {
    forall i, j :: 0 <= i < |items| && 0 <= j < |items| ==> !SharedIdentityMixes(items, i, j)
  }

  /** Two rows of one provider under one upstream id, left alone, that differ in behaviour. */
  ghost predicate ClashingRows(items: seq<Item>, i: nat, j: nat)
    requires i < |items| && j < |items|
  {
    items[i].key == items[j].key && LeftAlone(items, i) && LeftAlone(items, j)
    && items[i].fingerprint.behavior != items[j].fingerprint.behavior
  }

  /**
   * Merging is conservative exactly when no provider lists one upstream id twice with different
   * behaviour among the rows nothing else identifies: the provisional identity ignores behaviour.
   */
  lemma MergingIsConservativeIff(items: seq<Item>)
    ensures Conservative(items) <==> forall i, j :: 0 <= i < |items| && 0 <= j < |items| ==> !ClashingRows(items, i, j)
  {
    forall i, j | 0 <= i < |items| && 0 <= j < |items|
      ensures SharedIdentityMixes(items, i, j) <==> ClashingRows(items, i, j)
    {
      MixingIsClashing(items, i, j);
    }
  }

  ghost predicate SharedIdentityMixes(items: seq<Item>, i: nat, j: nat)
    requires i < |items| && j < |items|
  {
    Assigned(items, [], map[], i).identityId == Assigned(items, [], map[], j).identityId
    && items[i].fingerprint.behavior != items[j].fingerprint.behavior
  }

  lemma MixingIsClashing(items: seq<Item>, i: nat, j: nat)
    requires i < |items| && j < |items|
    ensures SharedIdentityMixes(items, i, j) <==> ClashingRows(items, i, j)
  {
    AssignedDescribes(items, i);
    AssignedDescribes(items, j);
    LeftAloneIsProvisional(items, i);
    LeftAloneIsProvisional(items, j);
  }

  /** Distinct upstream ids, as a well-formed discovery has, are enough. */
  lemma DistinctKeysMergeConservatively(items: seq<Item>)
    requires forall i, j :: 0 <= i < j < |items| ==> items[i].key != items[j].key
    ensures Conservative(items)
  {
    MergingIsConservativeIff(items);
    forall i, j | 0 <= i < |items| && 0 <= j < |items| ensures !ClashingRows(items, i, j) {
      if i != j {
        assert items[i].key != items[j].key;
      }
    }
  }

  /** No identifier leads from this offer to another. */
  ghost predicate Unnamed(hint: IdentityHint) {
    NormalizedIdentifier(hint.canonicalId) == "" && NormalizedIdentifier(hint.huggingFaceId) == ""
  }

  lemma UnnamedHasNoPartner(items: seq<Item>, i: nat)
    requires i < |items| && items[i].identifiers == []
    ensures !HasPartner(Nodes(items), i)
  {
    if HasPartner(Nodes(items), i) {
      PartnerMeansLink(Nodes(items), i);
    }
  }

  /** A provider that lists one unidentified id under two behaviours gets one identity for both. */
  lemma RepeatedIdMixesBehavior(offers: seq<DiscoveredOffer>)
    requires |offers| == 2 && KeyOf(offers[0]) == KeyOf(offers[1])
    requires forall i :: 0 <= i < 2 ==> Unnamed(offers[i].hint) && !Usable(FingerprintOf(offers[i].hint.description))
    requires BehaviorOf(offers[0].hint.description) != BehaviorOf(offers[1].hint.description)
    ensures !Conservative(ItemsOf(offers))
  {
    var items := ItemsOf(offers);
    UnnamedHasNoPartner(items, 0);
    UnnamedHasNoPartner(items, 1);
    MergingIsConservativeIff(items);
    assert ClashingRows(items, 0, 1);
  }

  /** An unrecognised model and its four-bit build. */
  lemma TwoQuantizations() returns (full: Description, small: Description)
    ensures !Usable(FingerprintOf(full)) && !Usable(FingerprintOf(small)) && BehaviorOf(full) != BehaviorOf(small)
    ensures full.vendor == "unknown" && small == full.(quantization := Some("int4")) && full.quantization == None
  {
    full := Description("unknown", "model", None, None, None, None, None, "model");
    small := full.(quantization := Some("int4"));
    PlainWordIsNormal("int4");
    PlainWordIsNormal("unknown");
  }

  /** One discovery that lists one model id at two quantizations, and throws them together. */
  lemma MergingCanMixBehavior() returns (offers: seq<DiscoveredOffer>)
    ensures |offers| == 2 && KeyOf(offers[0]) == KeyOf(offers[1])
    ensures offers[0].hint.description.quantization == None && offers[1].hint.description.quantization == Some("int4")
    ensures !Conservative(ItemsOf(offers))
  {
    var full, small := TwoQuantizations();
    var scope := Scope("platform", "platform");
    var plain, quantized := IdentityHint(full, None, None), IdentityHint(small, None, None);
    offers := [DiscoveredOffer("openrouter", "acme/model", scope, plain),
               DiscoveredOffer("openrouter", "acme/model", scope, quantized)];
    assert Unnamed(plain) && Unnamed(quantized);
    RepeatedIdMixesBehavior(offers);
  }

  // ----- The pass itself -----

  /** The dictionary of active aliases: the last active decision of each key wins. */
  function ActiveAliases(approved: seq<AliasDecision>): Aliases {
    if approved == [] then map[]
    else
      var before, last := ActiveAliases(approved[..|approved| - 1]), approved[|approved| - 1];
      if last.supersededAt.Some? then before
      else before[OfferKey(last.provider, last.sourceId) := last.identityId]
  }

  /** An active decision on that key. */
  ghost predicate Approves(decision: AliasDecision, key: OfferKey) {
    decision.supersededAt == None && decision.provider == key.provider && decision.sourceId == key.upstreamModelId
  }

  /** A key is approved exactly by an active decision on it, and of several the last counts. */
  lemma {:induction false} LastApprovalCounts(approved: seq<AliasDecision>, key: OfferKey)
    ensures key in ActiveAliases(approved) <==> exists i :: 0 <= i < |approved| && Approves(approved[i], key)
    ensures key in ActiveAliases(approved) ==>
              exists i :: 0 <= i < |approved| && Approves(approved[i], key)
                          && approved[i].identityId == ActiveAliases(approved)[key]
                          && forall j :: i < j < |approved| ==> !Approves(approved[j], key)
  {
    if approved != [] {
      var front, last := approved[..|approved| - 1], approved[|approved| - 1];
      LastApprovalCounts(front, key);
      assert forall i :: 0 <= i < |front| ==> front[i] == approved[i];
      if Approves(last, key) {
        assert Approves(approved[|approved| - 1], key);
      } else if key in ActiveAliases(front) {
        var i :| 0 <= i < |front| && Approves(front[i], key) && front[i].identityId == ActiveAliases(front)[key]
                 && forall j :: i < j < |front| ==> !Approves(front[j], key);
        assert Approves(approved[i], key);
      }
    }
  }

  /** Exactly the minted identities are created, each from the hint of an offer that was given it. */
  ghost predicate CreatesMinted(
    items: seq<Item>, chosen: map<nat, Assignment>, created: map<IdentityId, ModelIdentity>)
  {
    (forall id :: id in created ==> Mints(chosen, id))
    && (forall i :: i in chosen && chosen[i].minted ==> chosen[i].identityId in created)
    && forall id :: id in created ==> exists i :: DescribedBy(items, chosen, created[id], id, i)
  }

  ghost predicate Mints(chosen: map<nat, Assignment>, id: IdentityId) {
    exists i :: i in chosen && chosen[i].minted && chosen[i].identityId == id
  }

  ghost predicate DescribedBy(
    items: seq<Item>, chosen: map<nat, Assignment>, identity: ModelIdentity, id: IdentityId, i: nat)
  {
    i in chosen && i < |items| && chosen[i].minted && chosen[i].identityId == id == identity.identityId
    && identity.description == items[i].description && identity.provisional == (chosen[i].how == PROVISIONAL)
    && Foremost(chosen, id, chosen[i].how, i)
  }

  /** The first of the offers that were given a new identity; the last, where each created it afresh. */
  ghost predicate Foremost(chosen: map<nat, Assignment>, id: IdentityId, how: string, i: nat) {
    forall j :: j in chosen && chosen[j].minted && chosen[j].identityId == id ==> if how == PROVISIONAL then j <= i else i <= j
  }

  /** What the second stage says of one member, read off the returned component alone. */
  ghost function Answer(items: seq<Item>, aliases: Aliases, c: Component, i: nat): Option<Assignment>
    requires i < |items|
  {
    var targets := AliasesOf(items, aliases, c.members);
    if items[i].key in aliases then Some(Assignment(aliases[items[i].key], APPROVED_ALIAS, false))
    else if |targets| > 1 then None
    else if |targets| == 1 then Some(Assignment(Only(targets), PROVIDER_CANONICAL_ID, false))
    else Some(Assignment(FromIdentifier(c.identifier, items[i].fingerprint.behavior), PROVIDER_CANONICAL_ID, true))
  }

  ghost function AliasesOf(items: seq<Item>, aliases: Aliases, members: set<nat>): set<IdentityId> {
    set j | j in members && j < |items| && items[j].key in aliases :: aliases[items[j].key]
  }

  ghost function ComponentTable(items: seq<Item>, aliases: Aliases): (table: seq<Option<Assignment>>)
    ensures |table| == |items| && forall i :: 0 <= i < |items| ==> table[i] == ByComponent(items, aliases, i)
  {
    seq(|items|, i requires 0 <= i < |items| => ByComponent(items, aliases, i))
  }

  ghost predicate InFirst(components: seq<Component>, k: nat, i: nat)
    requires k <= |components|
  {
    exists a :: 0 <= a < k && i in components[a].members
  }

  /** The components agree with the reference definition, position by position. */
  ghost predicate Explains(
    items: seq<Item>, aliases: Aliases, components: seq<Component>, table: seq<Option<Assignment>>)
  {
    |table| == |items|
    && (forall a :: 0 <= a < |components| ==> Answered(items, aliases, components[a], table))
    && (forall a, b :: 0 <= a < b < |components| ==> components[a].members !! components[b].members)
    && forall i :: 0 <= i < |items| && items[i].key !in aliases && !InFirst(components, |components|, i)
         ==> table[i].None?
  }

  ghost predicate Answered(items: seq<Item>, aliases: Aliases, c: Component, table: seq<Option<Assignment>>)
    requires |table| == |items|
  {
    c.members != {}
    && forall i, j :: i in c.members && j in c.members ==>
         i < |items| && j < |items| && table[i] == Answer(items, aliases, c, i)
         && items[i].fingerprint.behavior == items[j].fingerprint.behavior
  }

  /** What the components mint differs from component to component, and approved aliases mint nothing. */
  ghost predicate MintsApart(
    items: seq<Item>, aliases: Aliases, components: seq<Component>, table: seq<Option<Assignment>>)
    requires |table| == |items|
  {
    (forall i :: 0 <= i < |items| && items[i].key in aliases ==> !MintsAt(table, i))
    && forall a, b :: 0 <= a < b < |components| ==>
         forall i, j :: i in components[a].members && j in components[b].members && MintsAt(table, i) && MintsAt(table, j) ==>
           table[i].value.identityId != table[j].value.identityId
  }

  ghost predicate MintsAt(table: seq<Option<Assignment>>, i: nat) {
    i < |table| && table[i].Some? && table[i].value.minted
  }

  lemma MemberMintsForItsClass(items: seq<Item>, aliases: Aliases, c: Component, i: nat)
    requires IsComponent(Nodes(items), c) && i in c.members && MintsAt(ComponentTable(items, aliases), i)
    ensures HasPartner(Nodes(items), i) && ComponentTargets(items, aliases, i) == {} && c.members == ClassOf(Nodes(items), i)
  {
    MemberClass(items, c, i);
  }

  lemma ComponentsMintApart(items: seq<Item>, aliases: Aliases, components: seq<Component>)
    requires AreComponents(Nodes(items), components)
    ensures MintsApart(items, aliases, components, ComponentTable(items, aliases))
  {
    var table := ComponentTable(items, aliases);
    forall a, b, i, j |
      0 <= a < b < |components| && i in components[a].members && j in components[b].members
      && MintsAt(table, i) && MintsAt(table, j)
      ensures table[i].value.identityId != table[j].value.identityId
    {
      MemberMintsForItsClass(items, aliases, components[a], i);
      MemberMintsForItsClass(items, aliases, components[b], j);
      if table[i].value.identityId == table[j].value.identityId {
        DistinctComponentsGetDistinctIdentities(items, aliases, i, j);
      }
    }
  }

  lemma LabelOfClass(items: seq<Item>, i: nat, identifier: string)
    requires i < |items| && IsLabel(Nodes(items), ClassOf(Nodes(items), i), identifier)
    ensures LabelOf(items, i) == identifier
  {
    LabelIsUnique(Nodes(items), ClassOf(Nodes(items), i), LabelOf(items, i), identifier);
  }

  lemma MemberClass(items: seq<Item>, c: Component, i: nat)
    requires IsComponent(Nodes(items), c) && i in c.members
    ensures i < |items| && HasPartner(Nodes(items), i) && c.members == ClassOf(Nodes(items), i)
    ensures LabelOf(items, i) == c.identifier
  {
    var nodes := Nodes(items);
    var m :| 0 <= m < |nodes| && HasPartner(nodes, m) && c.members == ClassOf(nodes, m);
    ConnectedSharesClass(nodes, m, i);
    PartnerOfMember(nodes, m, i);
    LabelOfClass(items, i, c.identifier);
  }

  lemma ClassTargets(items: seq<Item>, aliases: Aliases, members: set<nat>, i: nat)
    requires i < |items| && members == ClassOf(Nodes(items), i)
    ensures ComponentTargets(items, aliases, i) == AliasesOf(items, aliases, members)
  {
  }

  lemma MemberAnswered(items: seq<Item>, aliases: Aliases, c: Component, i: nat)
    requires IsComponent(Nodes(items), c) && i in c.members
    ensures i < |items| && ByComponent(items, aliases, i) == Answer(items, aliases, c, i)
  {
    MemberClass(items, c, i);
    ClassTargets(items, aliases, c.members, i);
  }

  lemma UncoveredUnanswered(items: seq<Item>, aliases: Aliases, components: seq<Component>, i: nat)
    requires i < |items| && (HasPartner(Nodes(items), i) ==> Covered(Nodes(items), components, i))
    requires items[i].key !in aliases && !InFirst(components, |components|, i)
    ensures ByComponent(items, aliases, i).None?
  {
    ConnectedReflexive(Nodes(items), i);
  }

  lemma ComponentsExplain(items: seq<Item>, aliases: Aliases, components: seq<Component>)
    requires AreComponents(Nodes(items), components)
    ensures Explains(items, aliases, components, ComponentTable(items, aliases))
  {
    var nodes, table := Nodes(items), ComponentTable(items, aliases);
    forall a | 0 <= a < |components| ensures Answered(items, aliases, components[a], table) {
      var c := components[a];
      assert IsComponent(nodes, c);
      ComponentHasOneBehavior(nodes, c);
      forall i | i in c.members ensures i < |items| && table[i] == Answer(items, aliases, c, i) {
        MemberAnswered(items, aliases, c, i);
      }
      forall i | i in c.members ensures nodes[i].behavior == items[i].fingerprint.behavior {
      }
    }
    forall i | 0 <= i < |items| && items[i].key !in aliases && !InFirst(components, |components|, i)
      ensures table[i].None?
    {
      UncoveredUnanswered(items, aliases, components, i);
    }
  }

  /** After the aliases and the first `k` components. */
  ghost predicate ComponentsDone(
    items: seq<Item>, aliases: Aliases, components: seq<Component>, k: nat, table: seq<Option<Assignment>>,
    chosen: map<nat, Assignment>)
    requires k <= |components| && |table| == |items|
  {
    (forall i :: i in chosen ==> i < |items| && table[i] == Some(chosen[i]))
    && forall i :: 0 <= i < |items| ==>
         (i in chosen <==> items[i].key in aliases || (InFirst(components, k, i) && table[i].Some?))
  }

  method AssignAliases(items: seq<Item>, aliases: Aliases) returns (chosen: map<nat, Assignment>)
    ensures forall i :: i in chosen <==> 0 <= i < |items| && items[i].key in aliases
    ensures forall i :: i in chosen ==> chosen[i] == Assignment(aliases[items[i].key], APPROVED_ALIAS, false)
  {
    chosen := map[];
    for index := 0 to |items|
      invariant forall i :: i in chosen <==> 0 <= i < index && items[i].key in aliases
      invariant forall i :: i in chosen ==> chosen[i] == Assignment(aliases[items[i].key], APPROVED_ALIAS, false)
    {
      if items[index].key in aliases {
        chosen := chosen[index := Assignment(aliases[items[index].key], APPROVED_ALIAS, false)];
      }
    }
  }

  method Smallest(members: set<nat>) returns (least: nat)
    requires members != {}
    ensures least in members && forall i :: i in members ==> least <= i
  {
    least :| least in members;
    var rest := members - {least};
    while rest != {}
      invariant rest <= members && least in members
      invariant forall j :: j in members && j !in rest ==> least <= j
      decreases rest
    {
      var i :| i in rest;
      if i < least {
        least := i;
      }
      rest := rest - {i};
    }
  }

  function TargetsIn(members: set<nat>, before: map<nat, Assignment>): set<IdentityId> {
    set j | j in members && j in before :: before[j].identityId
  }

  /** Before its turn, only the aliases of a component's members have been assigned. */
  lemma TargetsAreAliases(
    items: seq<Item>, aliases: Aliases, components: seq<Component>, k: nat, table: seq<Option<Assignment>>,
    chosen: map<nat, Assignment>)
    requires Explains(items, aliases, components, table) && k < |components|
    requires ComponentsDone(items, aliases, components, k, table, chosen)
    ensures forall j :: j in components[k].members ==> j < |items| && (j in chosen <==> items[j].key in aliases)
    ensures TargetsIn(components[k].members, chosen) == AliasesOf(items, aliases, components[k].members)
  {
  }

  function Spread(members: set<nat>, answer: Assignment, before: map<nat, Assignment>): map<nat, Assignment> {
    (map i | i in members :: answer) + before
  }

  lemma SpreadMembers(
    items: seq<Item>, aliases: Aliases, components: seq<Component>, k: nat, table: seq<Option<Assignment>>,
    before: map<nat, Assignment>, answer: Assignment)
    requires |table| == |items| && k < |components|
    requires ComponentsDone(items, aliases, components, k, table, before)
    requires forall i :: i in components[k].members ==>
               i < |items| && (items[i].key !in aliases ==> table[i] == Some(answer))
    ensures ComponentsDone(items, aliases, components, k + 1, table, Spread(components[k].members, answer, before))
  {
  }

  /** A component that its members' aliases pull apart assigns nothing. */
  lemma SkipMembers(
    items: seq<Item>, aliases: Aliases, components: seq<Component>, k: nat, table: seq<Option<Assignment>>,
    before: map<nat, Assignment>)
    requires |table| == |items| && k < |components|
    requires ComponentsDone(items, aliases, components, k, table, before)
    requires forall i :: i in components[k].members ==>
               i < |items| && (items[i].key !in aliases ==> table[i].None?)
    ensures ComponentsDone(items, aliases, components, k + 1, table, before)
  {
  }

  lemma SpreadKeepsDescriptions(
    items: seq<Item>, before: map<nat, Assignment>, created: map<IdentityId, ModelIdentity>, members: set<nat>,
    answer: Assignment, id: IdentityId)
    requires CreatesMinted(items, before, created) && id in created && !(answer.minted && answer.identityId == id)
    ensures Mints(Spread(members, answer, before), id)
    ensures exists i :: DescribedBy(items, Spread(members, answer, before), created[id], id, i)
  {
    var i :| DescribedBy(items, before, created[id], id, i);
    assert DescribedBy(items, Spread(members, answer, before), created[id], id, i);
  }

  lemma SpreadFound(
    items: seq<Item>, before: map<nat, Assignment>, created: map<IdentityId, ModelIdentity>, members: set<nat>,
    answer: Assignment)
    requires CreatesMinted(items, before, created) && !answer.minted
    ensures CreatesMinted(items, Spread(members, answer, before), created)
  {
    forall id | id in created
      ensures Mints(Spread(members, answer, before), id)
      ensures exists i :: DescribedBy(items, Spread(members, answer, before), created[id], id, i)
    {
      SpreadKeepsDescriptions(items, before, created, members, answer, id);
    }
  }

  lemma SpreadDescribed(
    items: seq<Item>, before: map<nat, Assignment>, created: map<IdentityId, ModelIdentity>, members: set<nat>,
    answer: Assignment, identity: ModelIdentity, source: nat)
    requires CreatesMinted(items, before, created) && answer.minted
    requires DescribedBy(items, Spread(members, answer, before), identity, answer.identityId, source)
    ensures CreatesMinted(items, Spread(members, answer, before), created[answer.identityId := identity])
  {
    var after := Spread(members, answer, before);
    forall id | id in created && id != answer.identityId
      ensures Mints(after, id) && exists i :: DescribedBy(items, after, created[id], id, i)
    {
      SpreadKeepsDescriptions(items, before, created, members, answer, id);
    }
  }

  lemma SpreadMinted(
    items: seq<Item>, before: map<nat, Assignment>, created: map<IdentityId, ModelIdentity>, members: set<nat>,
    answer: Assignment, identity: ModelIdentity, source: nat)
    requires CreatesMinted(items, before, created) && answer.minted && answer.identityId !in created
    requires identity.identityId == answer.identityId
    requires source in members && source !in before && source < |items| && forall j :: j in members ==> source <= j
    requires identity.description == items[source].description && !identity.provisional && answer.how != PROVISIONAL
    ensures CreatesMinted(items, Spread(members, answer, before), created[answer.identityId := identity])
  {
    SpreadDescribed(items, before, created, members, answer, identity, source);
  }

  ghost predicate IsReading(clock: nat -> real, at: real) {
    exists tick: nat :: clock(tick) == at
  }

  /** Every new identity carries some reading of the clock as its creation time. */
  ghost predicate Stamped(created: map<IdentityId, ModelIdentity>, clock: nat -> real) {
    forall id :: id in created ==> IsReading(clock, created[id].createdAt)
  }

  ghost predicate StampedAt(
    before: map<IdentityId, ModelIdentity>, created: map<IdentityId, ModelIdentity>, now: real)
  {
    forall id :: id in created ==> (id in before && created[id] == before[id]) || created[id].createdAt == now
  }

  /** A component mints an identity no earlier one did. */
  lemma MintedIsNew(
    items: seq<Item>, aliases: Aliases, components: seq<Component>, k: nat, table: seq<Option<Assignment>>,
    chosen: map<nat, Assignment>, created: map<IdentityId, ModelIdentity>, member: nat)
    requires |table| == |items| && k < |components| && MintsApart(items, aliases, components, table)
    requires ComponentsDone(items, aliases, components, k, table, chosen) && CreatesMinted(items, chosen, created)
    requires member in components[k].members && MintsAt(table, member)
    ensures table[member].value.identityId !in created
  {
  }

  method MintForComponent(
    items: seq<Item>, aliases: Aliases, components: seq<Component>, k: nat, ghost table: seq<Option<Assignment>>,
    before: map<nat, Assignment>, createdBefore: map<IdentityId, ModelIdentity>, now: real)
    returns (chosen: map<nat, Assignment>, created: map<IdentityId, ModelIdentity>)
    requires Explains(items, aliases, components, table) && k < |components| && MintsApart(items, aliases, components, table)
    requires ComponentsDone(items, aliases, components, k, table, before) && CreatesMinted(items, before, createdBefore)
    requires AliasesOf(items, aliases, components[k].members) == {} && forall j :: j in components[k].members ==> j !in before
    ensures ComponentsDone(items, aliases, components, k + 1, table, chosen) && CreatesMinted(items, chosen, created)
    ensures StampedAt(createdBefore, created, now)
  {
    var c := components[k];
    assert Answered(items, aliases, c, table);
    var first := Smallest(c.members);
    var id := FromIdentifier(c.identifier, items[first].fingerprint.behavior);
    var answer := Assignment(id, PROVIDER_CANONICAL_ID, true);
    var identity := ModelIdentity(id, items[first].description, false, now);
    SpreadMembers(items, aliases, components, k, table, before, answer);
    MintedIsNew(items, aliases, components, k, table, before, createdBefore, first);
    SpreadMinted(items, before, createdBefore, c.members, answer, identity, first);
    created := createdBefore[id := identity];
    chosen := Spread(c.members, answer, before);
  }

  method AssignComponent(
    items: seq<Item>, aliases: Aliases, components: seq<Component>, k: nat, ghost table: seq<Option<Assignment>>,
    before: map<nat, Assignment>, createdBefore: map<IdentityId, ModelIdentity>, now: real)
    returns (chosen: map<nat, Assignment>, created: map<IdentityId, ModelIdentity>)
    requires Explains(items, aliases, components, table) && k < |components| && MintsApart(items, aliases, components, table)
    requires ComponentsDone(items, aliases, components, k, table, before) && CreatesMinted(items, before, createdBefore)
    ensures ComponentsDone(items, aliases, components, k + 1, table, chosen) && CreatesMinted(items, chosen, created)
    ensures StampedAt(createdBefore, created, now)
  {
    chosen, created := before, createdBefore;
    var c := components[k];
    assert Answered(items, aliases, c, table);
    TargetsAreAliases(items, aliases, components, k, table, before);
    var targets := TargetsIn(c.members, before);
    if |targets| > 1 {
      SkipMembers(items, aliases, components, k, table, before);
    } else if |targets| == 1 {
      var target :| target in targets;
      TwoTargets(targets, target);
      var answer := Assignment(target, PROVIDER_CANONICAL_ID, false);
      SpreadMembers(items, aliases, components, k, table, before, answer);
      SpreadFound(items, before, created, c.members, answer);
      chosen := Spread(c.members, answer, before);
    } else {
      NoTargetsNoAliases(c.members, before);
      chosen, created := MintForComponent(items, aliases, components, k, table, before, created, now);
    }
  }

  lemma AssignedMemberIsTarget(members: set<nat>, before: map<nat, Assignment>, j: nat)
    requires j in members && j in before
    ensures before[j].identityId in TargetsIn(members, before)
  {
  }

  lemma NoTargetsNoAliases(members: set<nat>, before: map<nat, Assignment>)
    requires TargetsIn(members, before) == {}
    ensures forall j :: j in members ==> j !in before
  {
    forall j | j in members ensures j !in before {
      if j in before {
        AssignedMemberIsTarget(members, before, j);
      }
    }
  }

  /** What the fingerprint stage leaves behind for the offers it has reached. */
  ghost predicate FingerprintsDone(
    items: seq<Item>, first: seq<Option<Assignment>>, table: seq<Option<Assignment>>, reached: seq<Fingerprint>,
    chosen: map<nat, Assignment>)
    requires |first| == |table| == |items|
  {
    (forall i :: i in chosen ==> i < |items| && table[i] == Some(chosen[i]))
    && forall i :: 0 <= i < |items| ==>
         (i in chosen <==> first[i].Some? || (items[i].fingerprint in reached && table[i].Some?))
  }

  ghost function FingerprintTable(items: seq<Item>, known: seq<Known>, aliases: Aliases): (table: seq<Option<Assignment>>)
    ensures |table| == |items| && forall i :: 0 <= i < |items| ==> table[i] == ByFingerprint(items, known, aliases, i)
  {
    seq(|items|, i requires 0 <= i < |items| => ByFingerprint(items, known, aliases, i))
  }

  /** The identities an offer's fingerprint leads to, in terms of the component stage's table. */
  ghost function LedTo(items: seq<Item>, known: seq<Known>, first: seq<Option<Assignment>>, fingerprint: Fingerprint): set<IdentityId>
    requires |first| == |items|
  {
    (set j | 0 <= j < |items| && items[j].fingerprint == fingerprint && first[j].Some? :: first[j].value.identityId)
    + set k | k in known && k.fingerprint == fingerprint :: k.identityId
  }

  ghost function FingerprintAnswer(
    items: seq<Item>, known: seq<Known>, first: seq<Option<Assignment>>, i: nat): Option<Assignment>
    requires |first| == |items| && i < |items|
  {
    var targets := LedTo(items, known, first, items[i].fingerprint);
    if first[i].Some? then first[i]
    else if !Usable(items[i].fingerprint) then None
    else if |targets| == 1 then Some(Assignment(Only(targets), EXACT_FINGERPRINT, false))
    else if targets == {}
      && exists j :: 0 <= j < |items| && j != i && items[j].fingerprint == items[i].fingerprint && first[j].None?
    then Some(Assignment(FromFingerprint(items[i].fingerprint), EXACT_FINGERPRINT, true))
    else None
  }

  /** `table` is the fingerprint stage's outcome when the component stage ended in `first`. */
  ghost predicate Follows(
    items: seq<Item>, known: seq<Known>, first: seq<Option<Assignment>>, table: seq<Option<Assignment>>)
  {
    |first| == |table| == |items|
    && forall i :: 0 <= i < |items| ==> table[i] == FingerprintAnswer(items, known, first, i)
  }

  lemma TargetsFollow(items: seq<Item>, known: seq<Known>, aliases: Aliases, first: seq<Option<Assignment>>, i: nat)
    requires |first| == |items| && i < |items|
    requires forall j :: 0 <= j < |items| ==> first[j] == ByComponent(items, aliases, j)
    ensures LedTo(items, known, first, items[i].fingerprint) == FingerprintTargets(items, known, aliases, i)
    ensures HasUnresolvedTwin(items, aliases, i) <==>
      exists j :: 0 <= j < |items| && j != i && items[j].fingerprint == items[i].fingerprint && first[j].None?
  {
  }

  lemma RowFollows(items: seq<Item>, known: seq<Known>, aliases: Aliases, first: seq<Option<Assignment>>, i: nat)
    requires first == ComponentTable(items, aliases) && i < |items|
    ensures ByFingerprint(items, known, aliases, i) == FingerprintAnswer(items, known, first, i)
  {
    TargetsFollow(items, known, aliases, first, i);
  }

  lemma TableFollows(items: seq<Item>, known: seq<Known>, aliases: Aliases)
    ensures Follows(items, known, ComponentTable(items, aliases), FingerprintTable(items, known, aliases))
  {
    var first, table := ComponentTable(items, aliases), FingerprintTable(items, known, aliases);
    forall i | 0 <= i < |items| ensures table[i] == FingerprintAnswer(items, known, first, i) {
      RowFollows(items, known, aliases, first, i);
    }
  }

  method GroupByFingerprint(items: seq<Item>) returns (order: seq<Fingerprint>)
    ensures forall f :: f in order <==> Usable(f) && exists i :: 0 <= i < |items| && items[i].fingerprint == f
    ensures forall a, b :: 0 <= a < b < |order| ==> order[a] != order[b]
  {
    order := [];
    for index := 0 to |items|
      invariant forall f :: f in order <==> Usable(f) && exists i :: 0 <= i < index && items[i].fingerprint == f
      invariant forall a, b :: 0 <= a < b < |order| ==> order[a] != order[b]
    {
      var f := items[index].fingerprint;
      if Usable(f) && f !in order {
        order := order + [f];
      }
    }
  }

  function GroupOf(items: seq<Item>, f: Fingerprint): set<nat> {
    set i | 0 <= i < |items| && items[i].fingerprint == f
  }

  function Unresolved(items: seq<Item>, f: Fingerprint, before: map<nat, Assignment>): set<nat> {
    set i | i in GroupOf(items, f) && i !in before
  }

  function KnownTargets(known: seq<Known>, f: Fingerprint): set<IdentityId> {
    set k | k in known && k.fingerprint == f :: k.identityId
  }

  lemma SpreadUnresolved(
    items: seq<Item>, first: seq<Option<Assignment>>, table: seq<Option<Assignment>>, reached: seq<Fingerprint>,
    f: Fingerprint, before: map<nat, Assignment>, answer: Assignment)
    requires |first| == |table| == |items| && f !in reached
    requires FingerprintsDone(items, first, table, reached, before)
    requires forall i :: i in Unresolved(items, f, before) ==> table[i] == Some(answer)
    ensures FingerprintsDone(items, first, table, reached + [f], Spread(Unresolved(items, f, before), answer, before))
  {
  }

  lemma SkipUnresolved(
    items: seq<Item>, first: seq<Option<Assignment>>, table: seq<Option<Assignment>>, reached: seq<Fingerprint>,
    f: Fingerprint, before: map<nat, Assignment>)
    requires |first| == |table| == |items| && f !in reached
    requires FingerprintsDone(items, first, table, reached, before)
    requires forall i :: i in Unresolved(items, f, before) ==> table[i].None?
    ensures FingerprintsDone(items, first, table, reached + [f], before)
  {
  }

  lemma GroupReachesTargets(
    items: seq<Item>, known: seq<Known>, first: seq<Option<Assignment>>, table: seq<Option<Assignment>>,
    reached: seq<Fingerprint>, f: Fingerprint, chosen: map<nat, Assignment>)
    requires Follows(items, known, first, table) && f !in reached
    requires FingerprintsDone(items, first, table, reached, chosen)
    ensures TargetsIn(GroupOf(items, f), chosen) + KnownTargets(known, f) == LedTo(items, known, first, f)
    ensures forall i :: i in GroupOf(items, f) ==> (i in chosen <==> first[i].Some?)
  {
  }

  /** One target, none with company, or anything else: what the unresolved of a group are given. */
  lemma GroupAnswer(
    items: seq<Item>, known: seq<Known>, first: seq<Option<Assignment>>, table: seq<Option<Assignment>>,
    f: Fingerprint, before: map<nat, Assignment>)
    requires Follows(items, known, first, table) && Usable(f)
    requires forall i :: i in GroupOf(items, f) ==> (i in before <==> first[i].Some?)
    ensures var targets, unresolved := LedTo(items, known, first, f), Unresolved(items, f, before);
            forall i :: i in unresolved ==>
              table[i] == if |targets| == 1 then Some(Assignment(Only(targets), EXACT_FINGERPRINT, false))
                          else if targets == {} && |unresolved| >= 2
                          then Some(Assignment(FromFingerprint(f), EXACT_FINGERPRINT, true))
                          else None
  {
    var targets, unresolved := LedTo(items, known, first, f), Unresolved(items, f, before);
    forall i | i in unresolved
      ensures table[i] == FingerprintAnswer(items, known, first, i) && first[i].None?
      ensures |unresolved| >= 2 <==>
        exists j :: 0 <= j < |items| && j != i && items[j].fingerprint == items[i].fingerprint && first[j].None?
    {
      AtLeastTwo(unresolved, i);
      if j :| 0 <= j < |items| && j != i && items[j].fingerprint == items[i].fingerprint && first[j].None? {
        assert j in unresolved;
      }
    }
  }

  /** The component stage mints no identity of a fingerprint. */
  ghost predicate MintsNoFingerprint(first: seq<Option<Assignment>>) {
    forall i :: 0 <= i < |first| && MintsAt(first, i) ==> first[i].value.identityId.FromIdentifier?
  }

  lemma MintedFingerprintIsReached(
    items: seq<Item>, known: seq<Known>, first: seq<Option<Assignment>>, table: seq<Option<Assignment>>,
    reached: seq<Fingerprint>, f: Fingerprint, chosen: map<nat, Assignment>, i: nat)
    requires Follows(items, known, first, table) && MintsNoFingerprint(first)
    requires FingerprintsDone(items, first, table, reached, chosen)
    requires i in chosen && chosen[i].minted && chosen[i].identityId == FromFingerprint(f)
    ensures f in reached
  {
    assert table[i] == FingerprintAnswer(items, known, first, i);
    assert first[i].Some? ==> MintsAt(first, i);
  }

  lemma FingerprintIsNew(
    items: seq<Item>, known: seq<Known>, first: seq<Option<Assignment>>, table: seq<Option<Assignment>>,
    reached: seq<Fingerprint>, f: Fingerprint, chosen: map<nat, Assignment>, created: map<IdentityId, ModelIdentity>)
    requires Follows(items, known, first, table) && MintsNoFingerprint(first) && f !in reached
    requires FingerprintsDone(items, first, table, reached, chosen) && CreatesMinted(items, chosen, created)
    ensures FromFingerprint(f) !in created
  {
    if FromFingerprint(f) in created {
      var i: nat :| i in chosen && chosen[i].minted && chosen[i].identityId == FromFingerprint(f);
      MintedFingerprintIsReached(items, known, first, table, reached, f, chosen, i);
    }
  }

  method AssignFingerprint(
    items: seq<Item>, known: seq<Known>, ghost first: seq<Option<Assignment>>, ghost table: seq<Option<Assignment>>,
    ghost reached: seq<Fingerprint>, f: Fingerprint,
    before: map<nat, Assignment>, createdBefore: map<IdentityId, ModelIdentity>, now: real)
    returns (chosen: map<nat, Assignment>, created: map<IdentityId, ModelIdentity>)
    requires Follows(items, known, first, table) && f !in reached && Usable(f) && MintsNoFingerprint(first)
    requires FingerprintsDone(items, first, table, reached, before) && CreatesMinted(items, before, createdBefore)
    ensures FingerprintsDone(items, first, table, reached + [f], chosen) && CreatesMinted(items, chosen, created)
    ensures StampedAt(createdBefore, created, now)
  {
    chosen, created := before, createdBefore;
    var unresolved := Unresolved(items, f, before);
    var targets := TargetsIn(GroupOf(items, f), before) + KnownTargets(known, f);
    GroupReachesTargets(items, known, first, table, reached, f, before);
    GroupAnswer(items, known, first, table, f, before);
    if unresolved == {} {
      SkipUnresolved(items, first, table, reached, f, before);
    } else if |targets| == 1 {
      var target :| target in targets;
      TwoTargets(targets, target);
      var answer := Assignment(target, EXACT_FINGERPRINT, false);
      SpreadUnresolved(items, first, table, reached, f, before, answer);
      SpreadFound(items, before, created, unresolved, answer);
      chosen := Spread(unresolved, answer, before);
    } else if targets == {} && |unresolved| >= 2 {
      var least := Smallest(unresolved);
      var answer := Assignment(FromFingerprint(f), EXACT_FINGERPRINT, true);
      SpreadUnresolved(items, first, table, reached, f, before, answer);
      var identity := ModelIdentity(answer.identityId, items[least].description, false, now);
      FingerprintIsNew(items, known, first, table, reached, f, before, created);
      SpreadMinted(items, before, created, unresolved, answer, identity, least);
      created := created[answer.identityId := identity];
      chosen := Spread(unresolved, answer, before);
    } else {
      SkipUnresolved(items, first, table, reached, f, before);
    }
  }

  function ProvisionalFor(item: Item): Assignment {
    Assignment(FromOffer(item.key.provider, item.key.upstreamModelId), PROVISIONAL, true)
  }

  /** Provisional identities have only been minted for the offers before `index`. */
  ghost predicate ProvisionalBefore(chosen: map<nat, Assignment>, index: nat) {
    forall j :: j in chosen && chosen[j].minted && chosen[j].identityId.FromOffer? ==> j < index
  }

  lemma ProvisionalIsLast(
    items: seq<Item>, before: map<nat, Assignment>, created: map<IdentityId, ModelIdentity>, index: nat, answer: Assignment,
    identity: ModelIdentity)
    requires CreatesMinted(items, before, created) && index < |items| && index !in before && ProvisionalBefore(before, index)
    requires answer == ProvisionalFor(items[index])
    requires identity.identityId == answer.identityId && identity.description == items[index].description && identity.provisional
    ensures CreatesMinted(items, before[index := answer], created[answer.identityId := identity])
    ensures ProvisionalBefore(before[index := answer], index + 1)
  {
    assert before[index := answer] == Spread({index}, answer, before);
    SpreadDescribed(items, before, created, {index}, answer, identity, index);
  }

  method MintProvisional(
    items: seq<Item>, index: nat, before: map<nat, Assignment>, createdBefore: map<IdentityId, ModelIdentity>, now: real)
    returns (chosen: map<nat, Assignment>, created: map<IdentityId, ModelIdentity>)
    requires CreatesMinted(items, before, createdBefore) && index < |items| && index !in before
    requires ProvisionalBefore(before, index)
    ensures CreatesMinted(items, chosen, created) && ProvisionalBefore(chosen, index + 1)
    ensures chosen == before[index := ProvisionalFor(items[index])]
    ensures StampedAt(createdBefore, created, now)
  {
    var answer := ProvisionalFor(items[index]);
    var identity := ModelIdentity(answer.identityId, items[index].description, true, now);
    ProvisionalIsLast(items, before, createdBefore, index, answer, identity);
    created := createdBefore[answer.identityId := identity];
    chosen := before[index := answer];
  }

  ghost function Settled(items: seq<Item>, table: seq<Option<Assignment>>, i: nat): Assignment
    requires |table| == |items| && i < |items|
  {
    if table[i].Some? then table[i].value else ProvisionalFor(items[i])
  }

  /** The assignments once every offer before `index` has one. */
  ghost function Filled(items: seq<Item>, before: map<nat, Assignment>, index: nat): map<nat, Assignment>
    requires index <= |items|
  {
    if index == 0 then before
    else
      var filled := Filled(items, before, index - 1);
      if index - 1 in filled then filled else filled[index - 1 := ProvisionalFor(items[index - 1])]
  }

  lemma {:induction false} FilledSettles(
    items: seq<Item>, table: seq<Option<Assignment>>, before: map<nat, Assignment>, index: nat)
    requires |table| == |items| && index <= |items|
    requires forall i :: i in before <==> 0 <= i < |items| && table[i].Some?
    requires forall i :: i in before ==> table[i] == Some(before[i])
    ensures forall i :: i in Filled(items, before, index) <==> 0 <= i < index || i in before
    ensures forall i :: i in Filled(items, before, index) ==>
              i < |items| && Filled(items, before, index)[i] == Settled(items, table, i)
  {
    if index > 0 {
      FilledSettles(items, table, before, index - 1);
    }
  }

  method AssignProvisional(
    items: seq<Item>, before: map<nat, Assignment>, createdBefore: map<IdentityId, ModelIdentity>,
    clock: nat -> real, ticksBefore: nat)
    returns (chosen: map<nat, Assignment>, created: map<IdentityId, ModelIdentity>)
    requires CreatesMinted(items, before, createdBefore) && Stamped(createdBefore, clock) && ProvisionalBefore(before, 0)
    ensures CreatesMinted(items, chosen, created) && Stamped(created, clock)
    ensures chosen == Filled(items, before, |items|)
  {
    chosen, created := before, createdBefore;
    for index := 0 to |items|
      invariant CreatesMinted(items, chosen, created) && Stamped(created, clock) && ProvisionalBefore(chosen, index)
      invariant chosen == Filled(items, before, index)
    {
      if index !in chosen {
        chosen, created := MintProvisional(items, index, chosen, created, clock(ticksBefore + index));
      }
    }
  }

  lemma AllComponentsDone(
    items: seq<Item>, aliases: Aliases, components: seq<Component>, table: seq<Option<Assignment>>,
    chosen: map<nat, Assignment>)
    requires Explains(items, aliases, components, table)
    requires ComponentsDone(items, aliases, components, |components|, table, chosen)
    requires forall i :: 0 <= i < |items| && items[i].key in aliases ==> table[i].Some?
    ensures FingerprintsDone(items, table, table, [], chosen)
  {
  }

  lemma AliasesNeedNoComponent(
    items: seq<Item>, aliases: Aliases, components: seq<Component>, chosen: map<nat, Assignment>)
    requires forall i :: i in chosen <==> 0 <= i < |items| && items[i].key in aliases
    requires forall i :: i in chosen ==> chosen[i] == Assignment(aliases[items[i].key], APPROVED_ALIAS, false)
    ensures ComponentsDone(items, aliases, components, 0, ComponentTable(items, aliases), chosen)
    ensures CreatesMinted(items, chosen, map[])
    ensures forall i :: 0 <= i < |items| && items[i].key in aliases ==> ComponentTable(items, aliases)[i].Some?
  {
  }

  method AssignByComponents(items: seq<Item>, aliases: Aliases, clock: nat -> real)
    returns (chosen: map<nat, Assignment>, created: map<IdentityId, ModelIdentity>, ticks: nat)
    requires Plausible(items)
    ensures FingerprintsDone(items, ComponentTable(items, aliases), ComponentTable(items, aliases), [], chosen)
    ensures CreatesMinted(items, chosen, created) && Stamped(created, clock)
  {
    chosen := AssignAliases(items, aliases);
    var components := IdentifierComponents.Components(Nodes(items));
    ComponentsExplain(items, aliases, components);
    ComponentsMintApart(items, aliases, components);
    AliasesNeedNoComponent(items, aliases, components, chosen);
    ghost var table := ComponentTable(items, aliases);
    chosen, created := AssignEachComponent(items, aliases, components, table, chosen, clock);
    ticks := |components|;
    AllComponentsDone(items, aliases, components, table, chosen);
  }

  method AssignEachComponent(
    items: seq<Item>, aliases: Aliases, components: seq<Component>, ghost table: seq<Option<Assignment>>,
    before: map<nat, Assignment>, clock: nat -> real)
    returns (chosen: map<nat, Assignment>, created: map<IdentityId, ModelIdentity>)
    requires Explains(items, aliases, components, table) && MintsApart(items, aliases, components, table)
    requires ComponentsDone(items, aliases, components, 0, table, before) && CreatesMinted(items, before, map[])
    ensures ComponentsDone(items, aliases, components, |components|, table, chosen) && CreatesMinted(items, chosen, created)
    ensures Stamped(created, clock)
  {
    chosen, created := before, map[];
    for k := 0 to |components|
      invariant ComponentsDone(items, aliases, components, k, table, chosen) && CreatesMinted(items, chosen, created)
      invariant Stamped(created, clock)
    {
      chosen, created := AssignComponent(items, aliases, components, k, table, chosen, created, clock(k));
    }
  }

  method AssignEachFingerprint(
    items: seq<Item>, known: seq<Known>, ghost first: seq<Option<Assignment>>, ghost table: seq<Option<Assignment>>,
    order: seq<Fingerprint>, before: map<nat, Assignment>, createdBefore: map<IdentityId, ModelIdentity>,
    clock: nat -> real, ticksBefore: nat)
    returns (chosen: map<nat, Assignment>, created: map<IdentityId, ModelIdentity>)
    requires Follows(items, known, first, table) && MintsNoFingerprint(first)
    requires forall m :: 0 <= m < |order| ==> Usable(order[m]) && order[m] !in order[..m]
    requires FingerprintsDone(items, first, table, [], before) && CreatesMinted(items, before, createdBefore)
    requires Stamped(createdBefore, clock)
    ensures FingerprintsDone(items, first, table, order, chosen) && CreatesMinted(items, chosen, created)
    ensures Stamped(created, clock)
  {
    chosen, created := before, createdBefore;
    assert order[..0] == [];
    for m := 0 to |order|
      invariant FingerprintsDone(items, first, table, order[..m], chosen) && CreatesMinted(items, chosen, created)
      invariant Stamped(created, clock)
    {
      assert order[..m + 1] == order[..m] + [order[m]];
      chosen, created :=
        AssignFingerprint(items, known, first, table, order[..m], order[m], chosen, created, clock(ticksBefore + m));
    }
    assert order[..|order|] == order;
  }

  method AssignByFingerprints(
    items: seq<Item>, known: seq<Known>, ghost first: seq<Option<Assignment>>, ghost table: seq<Option<Assignment>>,
    before: map<nat, Assignment>, createdBefore: map<IdentityId, ModelIdentity>, clock: nat -> real, ticksBefore: nat)
    returns (chosen: map<nat, Assignment>, created: map<IdentityId, ModelIdentity>, ticks: nat)
    requires Follows(items, known, first, table) && MintsNoFingerprint(first)
    requires FingerprintsDone(items, first, first, [], before) && CreatesMinted(items, before, createdBefore)
    requires Stamped(createdBefore, clock)
    ensures forall i :: i in chosen <==> 0 <= i < |items| && table[i].Some?
    ensures forall i :: i in chosen ==> table[i] == Some(chosen[i])
    ensures CreatesMinted(items, chosen, created) && Stamped(created, clock)
  {
    var order := GroupByFingerprint(items);
    ticks := ticksBefore + |order|;
    chosen, created := AssignEachFingerprint(items, known, first, table, order, before, createdBefore, clock, ticksBefore);
    AllFingerprintsDone(items, known, first, table, order, chosen);
  }

  lemma AllFingerprintsDone(
    items: seq<Item>, known: seq<Known>, first: seq<Option<Assignment>>, table: seq<Option<Assignment>>,
    order: seq<Fingerprint>, chosen: map<nat, Assignment>)
    requires Follows(items, known, first, table) && FingerprintsDone(items, first, table, order, chosen)
    requires forall i :: 0 <= i < |items| && Usable(items[i].fingerprint) ==> items[i].fingerprint in order
    ensures forall i :: i in chosen <==> 0 <= i < |items| && table[i].Some?
    ensures forall i :: i in chosen ==> table[i] == Some(chosen[i])
  {
  }

  /** `IdentityReconciler.reconcile`; `clock` gives the readings stamped on new identities. */
  method Reconcile(items: seq<Item>, known: seq<Known>, approved: seq<AliasDecision>, clock: nat -> real)
    returns (answers: seq<Assignment>, created: map<IdentityId, ModelIdentity>)
    requires Plausible(items)
    ensures |answers| == |items|
    ensures forall i :: 0 <= i < |items| ==> answers[i] == Assigned(items, known, ActiveAliases(approved), i)
    ensures forall id :: id in created ==> exists i :: CreatedFrom(items, answers, created[id], id, i)
    ensures forall i :: 0 <= i < |items| && answers[i].minted ==> answers[i].identityId in created
    ensures Stamped(created, clock)
  {
    var aliases := ActiveAliases(approved);
    ghost var first, table := ComponentTable(items, aliases), FingerprintTable(items, known, aliases);
    TableFollows(items, known, aliases);
    StagesMint(items, known, aliases);
    var placed, found, ticks := AssignByComponents(items, aliases, clock);
    var matched, more, later := AssignByFingerprints(items, known, first, table, placed, found, clock, ticks);
    var chosen, all := AssignProvisional(items, matched, more, clock, later);
    FilledCovers(items, matched, |items|);
    answers := seq(|items|, i requires 0 <= i < |items| && i in chosen => chosen[i]);
    created := all;
    AllAssigned(items, known, aliases, matched, answers, created);
  }

  lemma FilledCovers(items: seq<Item>, before: map<nat, Assignment>, index: nat)
    requires index <= |items|
    ensures forall i :: 0 <= i < index ==> i in Filled(items, before, index)
  {
  }

  /** The answers read off at the end are the assigned ones, and what was created is what they minted. */
  lemma AllAssigned(
    items: seq<Item>, known: seq<Known>, aliases: Aliases, matched: map<nat, Assignment>, answers: seq<Assignment>,
    created: map<IdentityId, ModelIdentity>)
    requires forall i :: i in matched <==> 0 <= i < |items| && FingerprintTable(items, known, aliases)[i].Some?
    requires forall i :: i in matched ==> FingerprintTable(items, known, aliases)[i] == Some(matched[i])
    requires |answers| == |items| && CreatesMinted(items, Filled(items, matched, |items|), created)
    requires forall i :: 0 <= i < |items| ==>
               i in Filled(items, matched, |items|) && answers[i] == Filled(items, matched, |items|)[i]
    ensures forall i :: 0 <= i < |items| ==> answers[i] == Assigned(items, known, aliases, i)
    ensures forall id :: id in created ==> exists i :: CreatedFrom(items, answers, created[id], id, i)
    ensures forall i :: 0 <= i < |items| && answers[i].minted ==> answers[i].identityId in created
  {
    FilledSettles(items, FingerprintTable(items, known, aliases), matched, |items|);
    ReadOff(items, Filled(items, matched, |items|), answers, created);
    forall i | 0 <= i < |items| ensures answers[i] == Assigned(items, known, aliases, i) {
      SettledIsAssigned(items, known, aliases, i);
    }
  }

  /** What each stage's new identities are made of. */
  lemma StagesMint(items: seq<Item>, known: seq<Known>, aliases: Aliases)
    ensures MintsNoFingerprint(ComponentTable(items, aliases))
    ensures forall i :: 0 <= i < |items| && MintsAt(FingerprintTable(items, known, aliases), i) ==>
              !FingerprintTable(items, known, aliases)[i].value.identityId.FromOffer?
  {
  }

  lemma SettledIsAssigned(items: seq<Item>, known: seq<Known>, aliases: Aliases, i: nat)
    requires i < |items|
    ensures Settled(items, FingerprintTable(items, known, aliases), i) == Assigned(items, known, aliases, i)
  {
  }

  lemma ReadOff(
    items: seq<Item>, chosen: map<nat, Assignment>, answers: seq<Assignment>, created: map<IdentityId, ModelIdentity>)
    requires CreatesMinted(items, chosen, created) && |answers| == |items|
    requires forall i :: i in chosen <==> 0 <= i < |items|
    requires forall i :: i in chosen ==> answers[i] == chosen[i]
    ensures forall id :: id in created ==> exists i :: CreatedFrom(items, answers, created[id], id, i)
    ensures forall i :: 0 <= i < |items| && answers[i].minted ==> answers[i].identityId in created
  {
    forall id | id in created ensures exists i :: CreatedFrom(items, answers, created[id], id, i) {
      var i :| DescribedBy(items, chosen, created[id], id, i);
      assert CreatedFrom(items, answers, created[id], id, i);
    }
  }

  /**
   * The new identity `id` is described by offer `i`, which was given it: the first one that was, or the last
   * one where it is provisional, since every row that repeats a key describes its identity again.
   */
  ghost predicate CreatedFrom(
    items: seq<Item>, answers: seq<Assignment>, identity: ModelIdentity, id: IdentityId, i: nat)
  {
    i < |items| == |answers| && answers[i].minted && answers[i].identityId == id == identity.identityId
    && identity.description == items[i].description && identity.provisional == (answers[i].how == PROVISIONAL)
    && forall j :: 0 <= j < |answers| && answers[j].minted && answers[j].identityId == id ==>
         if identity.provisional then j <= i else i <= j
  }
}
