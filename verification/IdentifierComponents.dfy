/**
 * Union-find with path halving over provider offers: `_identifier_components`.
 * The reference definition is reachability over links, where two offers are linked when they list
 * a common normalised identifier and agree on every behaviour-changing dimension.
 */
module IdentifierComponents {
  import opened Common
  import opened Domain

  /** What the algorithm reads of an offer: its non-empty normalised identifiers and its behaviour. */
  datatype Node = Node(identifiers: seq<string>, behavior: Behavior)

  predicate AtMostTwo(nodes: seq<Node>) {
    forall i :: 0 <= i < |nodes| ==> |nodes[i].identifiers| <= 2
  }

  // ----- Reference definition: classes of linked offers -----

  ghost predicate Linked(nodes: seq<Node>, i: nat, j: nat)
    requires i < |nodes| && j < |nodes|
  {
    nodes[i].behavior == nodes[j].behavior
    && exists s :: s in nodes[i].identifiers && s in nodes[j].identifiers
  }

  ghost predicate IsChain(nodes: seq<Node>, path: seq<nat>) {
    |path| > 0
    && (forall k :: 0 <= k < |path| ==> path[k] < |nodes|)
    && forall k :: 0 <= k < |path| - 1 ==> Linked(nodes, path[k], path[k + 1])
  }

  ghost predicate Connected(nodes: seq<Node>, i: nat, j: nat) {
    exists path :: IsChain(nodes, path) && path[0] == i && path[|path| - 1] == j
  }

  ghost function ClassOf(nodes: seq<Node>, i: nat): set<nat> {
    set j | 0 <= j < |nodes| && Connected(nodes, i, j)
  }

  /** The identifiers `shared` collects for one offer: listed by another offer too, or listed twice. */
  ghost predicate SharesIdentifier(nodes: seq<Node>, i: nat, s: string)
    requires i < |nodes|
  {
    s in nodes[i].identifiers
    && (nodes[i].identifiers == [s, s]
        || exists j :: 0 <= j < |nodes| && j != i && s in nodes[j].identifiers
                    && nodes[i].behavior == nodes[j].behavior)
  }

  ghost predicate InLabels(nodes: seq<Node>, members: set<nat>, s: string) {
    exists i :: i in members && i < |nodes| && SharesIdentifier(nodes, i, s)
  }

  /** `sorted(component_ids[root])[0]`. */
  ghost predicate IsLabel(nodes: seq<Node>, members: set<nat>, identifier: string) {
    InLabels(nodes, members, identifier)
    && forall s :: InLabels(nodes, members, s) && s != identifier ==> Less(identifier, s)
  }

  lemma LabelIsUnique(nodes: seq<Node>, members: set<nat>, a: string, b: string)
    requires IsLabel(nodes, members, a) && IsLabel(nodes, members, b)
    ensures a == b
  {
    if a != b {
      LessAsymmetric(a, b);
    }
  }

  lemma ConnectedReflexive(nodes: seq<Node>, i: nat)
    requires i < |nodes|
    ensures Connected(nodes, i, i)
  {
    assert IsChain(nodes, [i]);
  }

  lemma LinkedConnects(nodes: seq<Node>, i: nat, j: nat)
    requires i < |nodes| && j < |nodes| && Linked(nodes, i, j)
    ensures Connected(nodes, i, j)
  {
    assert IsChain(nodes, [i, j]);
  }

  lemma ConnectedTransitive(nodes: seq<Node>, i: nat, j: nat, k: nat)
    requires Connected(nodes, i, j) && Connected(nodes, j, k)
    ensures Connected(nodes, i, k)
  {
    var p :| IsChain(nodes, p) && p[0] == i && p[|p| - 1] == j;
    var q :| IsChain(nodes, q) && q[0] == j && q[|q| - 1] == k;
    var r := p + q[1..];
    forall m | 0 <= m < |r| - 1 ensures Linked(nodes, r[m], r[m + 1]) {
      if m < |p| - 1 {
        assert r[m] == p[m] && r[m + 1] == p[m + 1];
      } else {
        assert r[m] == q[m - (|p| - 1)] && r[m + 1] == q[m - (|p| - 1) + 1];
      }
    }
    assert IsChain(nodes, r);
  }

  lemma ConnectedSymmetric(nodes: seq<Node>, i: nat, j: nat)
    requires Connected(nodes, i, j)
    ensures Connected(nodes, j, i)
  {
    var p :| IsChain(nodes, p) && p[0] == i && p[|p| - 1] == j;
    var r := seq(|p|, k requires 0 <= k < |p| => p[|p| - 1 - k]);
    forall m | 0 <= m < |r| - 1 ensures Linked(nodes, r[m], r[m + 1]) {
      var at := |p| - 2 - m;
      assert Linked(nodes, p[at], p[at + 1]);
      assert r[m] == p[at + 1] && r[m + 1] == p[at];
    }
    assert IsChain(nodes, r);
  }

  /** A chain never leaves one behaviour fingerprint. */
  lemma {:induction false} ChainKeepsBehavior(nodes: seq<Node>, path: seq<nat>)
    requires IsChain(nodes, path)
    ensures nodes[path[0]].behavior == nodes[path[|path| - 1]].behavior
  {
    if |path| > 1 {
      var front := path[..|path| - 1];
      forall k | 0 <= k < |front| - 1 ensures Linked(nodes, front[k], front[k + 1]) {
        assert Linked(nodes, path[k], path[k + 1]);
      }
      ChainKeepsBehavior(nodes, front);
      assert Linked(nodes, path[|path| - 2], path[|path| - 2 + 1]);
    }
  }

  lemma ConnectedKeepsBehavior(nodes: seq<Node>, i: nat, j: nat)
    requires Connected(nodes, i, j)
    ensures i < |nodes| && j < |nodes|
    ensures nodes[i].behavior == nodes[j].behavior
  {
    var path :| IsChain(nodes, path) && path[0] == i && path[|path| - 1] == j;
    ChainKeepsBehavior(nodes, path);
  }

  lemma ConnectedSharesClass(nodes: seq<Node>, i: nat, j: nat)
    requires Connected(nodes, i, j)
    ensures ClassOf(nodes, i) == ClassOf(nodes, j)
  {
    ConnectedSymmetric(nodes, i, j);
    forall k | 0 <= k < |nodes| ensures k in ClassOf(nodes, i) <==> k in ClassOf(nodes, j) {
      if Connected(nodes, i, k) {
        ConnectedTransitive(nodes, j, i, k);
      }
      if Connected(nodes, j, k) {
        ConnectedTransitive(nodes, i, j, k);
      }
    }
  }

  // ----- The forest -----

  /** `depth` falls along every parent edge, so every walk to a root ends. */
  ghost predicate Forest(parent: seq<nat>, depth: seq<nat>) {
    |depth| == |parent|
    && forall i :: 0 <= i < |parent| ==>
         parent[i] < |parent| && (parent[i] != i ==> depth[parent[i]] < depth[i])
  }

  ghost function Root(parent: seq<nat>, depth: seq<nat>, i: nat): (root: nat)
    requires Forest(parent, depth) && i < |parent|
    ensures root < |parent| && parent[root] == root
    decreases depth[i]
  {
    if parent[i] == i then i else Root(parent, depth, parent[i])
  }

  /** Path halving shortens a walk without moving its end. */
  lemma {:induction false} HalvingKeepsRoots(parent: seq<nat>, depth: seq<nat>, at: nat, i: nat)
    requires Forest(parent, depth) && at < |parent| && i < |parent|
    ensures Forest(parent[at := parent[parent[at]]], depth)
    ensures Root(parent[at := parent[parent[at]]], depth, i) == Root(parent, depth, i)
    decreases depth[i]
  {
    if parent[i] != i {
      HalvingKeepsRoots(parent, depth, at, parent[i]);
      if i == at && parent[parent[i]] != parent[i] {
        HalvingKeepsRoots(parent, depth, at, parent[parent[i]]);
      }
    }
  }

  /** Depths after hanging the tree of `child` under the root `above`. */
  ghost function Lowered(parent: seq<nat>, depth: seq<nat>, child: nat, above: nat): (lowered: seq<nat>)
    requires Forest(parent, depth) && child < |parent| && above < |parent|
  {
    seq(|parent|, i requires 0 <= i < |parent| =>
      if Root(parent, depth, i) == child then depth[i] + depth[above] + 1 else depth[i])
  }

  lemma LoweredIsForest(parent: seq<nat>, depth: seq<nat>, child: nat, above: nat)
    requires Forest(parent, depth) && child < |parent| && above < |parent|
    requires parent[child] == child && parent[above] == above && child != above
    ensures Forest(parent[child := above], Lowered(parent, depth, child, above))
  {
  }

  lemma {:induction false} UnionMovesOneTree(parent: seq<nat>, depth: seq<nat>, child: nat, above: nat, i: nat)
    requires Forest(parent, depth) && child < |parent| && above < |parent| && i < |parent|
    requires parent[child] == child && parent[above] == above && child != above
    ensures Forest(parent[child := above], Lowered(parent, depth, child, above))
    ensures Root(parent[child := above], Lowered(parent, depth, child, above), i)
         == if Root(parent, depth, i) == child then above else Root(parent, depth, i)
    decreases depth[i]
  {
    LoweredIsForest(parent, depth, child, above);
    var linked, lowered := parent[child := above], Lowered(parent, depth, child, above);
    if i == child {
      assert Root(linked, lowered, above) == above;
    } else if parent[i] != i {
      UnionMovesOneTree(parent, depth, child, above, parent[i]);
    }
  }

  ghost predicate SameRoots(before: seq<nat>, after: seq<nat>, depth: seq<nat>) {
    Forest(before, depth) && Forest(after, depth) && |before| == |after|
    && forall i :: 0 <= i < |before| ==> Root(after, depth, i) == Root(before, depth, i)
  }

  /** `find`: rewrites `parent` while walking, and still ends at the original root. */
  method Find(parent: array<nat>, start: nat, ghost depth: seq<nat>) returns (root: nat)
    requires Forest(parent[..], depth) && start < parent.Length
    modifies parent
    ensures SameRoots(old(parent[..]), parent[..], depth)
    ensures root == Root(parent[..], depth, start)
    ensures root < parent.Length && parent[root] == root
  {
    ghost var before := parent[..];
    var index: nat := start;
    while parent[index] != index
      invariant index < parent.Length
      invariant SameRoots(before, parent[..], depth)
      invariant Root(parent[..], depth, index) == Root(before, depth, start)
      decreases depth[index]
    {
      ghost var now := parent[..];
      forall i | 0 <= i < |now|
        ensures Forest(now[index := now[now[index]]], depth)
        ensures Root(now[index := now[now[index]]], depth, i) == Root(now, depth, i)
      {
        HalvingKeepsRoots(now, depth, index, i);
      }
      parent[index] := parent[parent[index]];
      assert parent[..] == now[index := now[now[index]]];
      index := parent[index];
    }
    root := index;
  }

  ghost predicate Joins(before: seq<nat>, depthBefore: seq<nat>, after: seq<nat>, depth: seq<nat>, left: nat, right: nat)
  {
    Forest(before, depthBefore) && Forest(after, depth) && |before| == |after|
    && left < |before| && right < |before|
    && forall i :: 0 <= i < |before| ==>
         Root(after, depth, i) == if Root(before, depthBefore, i) == Root(before, depthBefore, right)
                                  then Root(before, depthBefore, left)
                                  else Root(before, depthBefore, i)
  }

  method Union(parent: array<nat>, left: nat, right: nat, ghost depth: seq<nat>) returns (ghost lowered: seq<nat>)
    requires Forest(parent[..], depth) && left < parent.Length && right < parent.Length
    modifies parent
    ensures Joins(old(parent[..]), depth, parent[..], lowered, left, right)
  {
    var leftRoot := Find(parent, left, depth);
    ghost var half := parent[..];
    var rightRoot := Find(parent, right, depth);
    ghost var now := parent[..];
    assert SameRoots(half, now, depth);
    assert leftRoot == Root(now, depth, left);
    lowered := depth;
    if leftRoot != rightRoot {
      assert Root(now, depth, leftRoot) == leftRoot by {
        assert Root(half, depth, leftRoot) == leftRoot;
      }
      assert now[leftRoot] == leftRoot;
      forall i | 0 <= i < |now|
        ensures Forest(now[rightRoot := leftRoot], Lowered(now, depth, rightRoot, leftRoot))
        ensures Root(now[rightRoot := leftRoot], Lowered(now, depth, rightRoot, leftRoot), i)
             == if Root(now, depth, i) == rightRoot then leftRoot else Root(now, depth, i)
      {
        UnionMovesOneTree(now, depth, rightRoot, leftRoot, i);
      }
      parent[rightRoot] := leftRoot;
      lowered := Lowered(now, depth, rightRoot, leftRoot);
      assert parent[..] == now[rightRoot := leftRoot];
    }
  }

  // ----- Grouping offers by identifier and joining the pairs that agree -----

  datatype Component = Component(members: set<nat>, identifier: string)

  ghost predicate Grouped(nodes: seq<Node>, groups: map<string, seq<nat>>) {
    forall s :: s in groups ==>
      (forall a :: 0 <= a < |groups[s]| ==> groups[s][a] < |nodes| && s in nodes[groups[s][a]].identifiers)
      && forall a, b :: 0 <= a < b < |groups[s]| && groups[s][a] == groups[s][b]
                        ==> nodes[groups[s][a]].identifiers == [s, s]
  }

  function Appended(groups: map<string, seq<nat>>, s: string, index: nat): map<string, seq<nat>> {
    groups[s := (if s in groups then groups[s] else []) + [index]]
  }

  /** Only offers up to `index` are listed, `index` only under its first `k` identifiers. */
  ghost predicate ListedUpTo(nodes: seq<Node>, groups: map<string, seq<nat>>, index: nat, k: nat)
    requires index < |nodes| && k <= |nodes[index].identifiers|
  {
    forall s, a :: s in groups && 0 <= a < |groups[s]| ==>
      groups[s][a] < index || (groups[s][a] == index && s in nodes[index].identifiers[..k])
  }

  ghost predicate Lists(groups: map<string, seq<nat>>, s: string, i: nat) {
    s in groups && i in groups[s]
  }

  /** Every identifier of the offers before `index`, and the first `k` of `index`, has its entry. */
  ghost predicate CoveredUpTo(nodes: seq<Node>, groups: map<string, seq<nat>>, index: nat, k: nat)
    requires index < |nodes| && k <= |nodes[index].identifiers|
  {
    (forall i, s :: 0 <= i < index && s in nodes[i].identifiers ==> Lists(groups, s, i))
    && forall s :: s in nodes[index].identifiers[..k] ==> Lists(groups, s, index)
  }

  lemma AppendKeepsLists(groups: map<string, seq<nat>>, s: string, index: nat)
    ensures Lists(Appended(groups, s, index), s, index)
    ensures forall t, i :: Lists(groups, t, i) ==> Lists(Appended(groups, s, index), t, i)
  {
  }

  lemma AppendKeepsListed(nodes: seq<Node>, groups: map<string, seq<nat>>, index: nat, k: nat)
    requires index < |nodes| && k < |nodes[index].identifiers|
    requires ListedUpTo(nodes, groups, index, k)
    ensures ListedUpTo(nodes, Appended(groups, nodes[index].identifiers[k], index), index, k + 1)
  {
  }

  lemma AppendKeepsGroups(nodes: seq<Node>, groups: map<string, seq<nat>>, index: nat, k: nat)
    requires index < |nodes| && k < |nodes[index].identifiers| <= 2
    requires Grouped(nodes, groups) && ListedUpTo(nodes, groups, index, k)
    ensures Grouped(nodes, Appended(groups, nodes[index].identifiers[k], index))
  {
    var ids := nodes[index].identifiers;
    var s := ids[k];
    var grown := Appended(groups, s, index);
    var listed := if s in groups then groups[s] else [];
    forall a | 0 <= a < |listed| && listed[a] == index ensures ids == [s, s] {
      assert s in ids[..k];
      assert k == 1 && ids[0] == s;
    }
    GroupExtends(nodes, listed, s, index);
    assert grown[s] == listed + [index];
    forall t | t in grown && t != s ensures grown[t] == groups[t] {}
  }

  lemma GroupExtends(nodes: seq<Node>, listed: seq<nat>, s: string, index: nat)
    requires index < |nodes| && s in nodes[index].identifiers
    requires forall a :: 0 <= a < |listed| ==> listed[a] < |nodes| && s in nodes[listed[a]].identifiers
    requires forall a, b :: 0 <= a < b < |listed| && listed[a] == listed[b] ==> nodes[listed[a]].identifiers == [s, s]
    requires forall a :: 0 <= a < |listed| && listed[a] == index ==> nodes[index].identifiers == [s, s]
    ensures forall a :: 0 <= a < |listed + [index]| ==>
              (listed + [index])[a] < |nodes| && s in nodes[(listed + [index])[a]].identifiers
    ensures forall a, b :: 0 <= a < b < |listed + [index]| && (listed + [index])[a] == (listed + [index])[b] ==>
              nodes[(listed + [index])[a]].identifiers == [s, s]
  {
  }

  method AddOffer(nodes: seq<Node>, before: map<string, seq<nat>>, orderBefore: seq<string>, index: nat)
    returns (groups: map<string, seq<nat>>, order: seq<string>)
    requires AtMostTwo(nodes) && index < |nodes|
    requires Grouped(nodes, before) && ListedUpTo(nodes, before, index, 0) && CoveredUpTo(nodes, before, index, 0)
    requires forall s :: s in orderBefore <==> s in before
    ensures Grouped(nodes, groups)
    ensures ListedUpTo(nodes, groups, index, |nodes[index].identifiers|)
    ensures CoveredUpTo(nodes, groups, index, |nodes[index].identifiers|)
    ensures forall s :: s in order <==> s in groups
  {
    groups, order := before, orderBefore;
    var ids := nodes[index].identifiers;
    for k := 0 to |ids|
      invariant Grouped(nodes, groups) && ListedUpTo(nodes, groups, index, k) && CoveredUpTo(nodes, groups, index, k)
      invariant forall s :: s in order <==> s in groups
    {
      AppendKeepsGroups(nodes, groups, index, k);
      AppendKeepsListed(nodes, groups, index, k);
      AppendKeepsLists(groups, ids[k], index);
      assert ids[..k + 1] == ids[..k] + [ids[k]];
      groups, order := Appended(groups, ids[k], index), if ids[k] in groups then order else order + [ids[k]];
    }
  }

  method GroupByIdentifier(nodes: seq<Node>) returns (groups: map<string, seq<nat>>, order: seq<string>)
    requires AtMostTwo(nodes)
    ensures Grouped(nodes, groups)
    ensures forall s :: s in order <==> s in groups
    ensures forall i, s :: 0 <= i < |nodes| && s in nodes[i].identifiers ==> Lists(groups, s, i)
  {
    groups, order := map[], [];
    for index := 0 to |nodes|
      invariant Grouped(nodes, groups)
      invariant forall s :: s in order <==> s in groups
      invariant forall s, a :: s in groups && 0 <= a < |groups[s]| ==> groups[s][a] < index
      invariant forall i, s :: 0 <= i < index && s in nodes[i].identifiers ==> Lists(groups, s, i)
    {
      groups, order := AddOffer(nodes, groups, order, index);
      assert nodes[index].identifiers[..|nodes[index].identifiers|] == nodes[index].identifiers;
    }
  }

  /** What the joining loops keep: roots and shared identifiers only ever record real links. */
  ghost predicate Sound(nodes: seq<Node>, parent: seq<nat>, depth: seq<nat>, shared: seq<set<string>>) {
    |parent| == |nodes| == |shared| && Forest(parent, depth)
    && (forall i, j :: 0 <= i < |nodes| && 0 <= j < |nodes| && Root(parent, depth, i) == Root(parent, depth, j)
                       ==> Connected(nodes, i, j))
    && forall i, s :: 0 <= i < |nodes| && s in shared[i] ==> SharesIdentifier(nodes, i, s)
  }

  ghost predicate Grows(
    parent: seq<nat>, depth: seq<nat>, shared: seq<set<string>>,
    parent': seq<nat>, depth': seq<nat>, shared': seq<set<string>>)
  {
    Forest(parent, depth) && Forest(parent', depth') && |parent| == |parent'| == |shared| == |shared'|
    && (forall i, j :: 0 <= i < |parent| && 0 <= j < |parent| && Root(parent, depth, i) == Root(parent, depth, j)
                       ==> Root(parent', depth', i) == Root(parent', depth', j))
    && forall i :: 0 <= i < |shared| ==> shared[i] <= shared'[i]
  }

  ghost predicate PairJoined(
    nodes: seq<Node>, parent: seq<nat>, depth: seq<nat>, shared: seq<set<string>>,
    left: nat, right: nat, s: string)
    requires Forest(parent, depth) && |parent| == |nodes| == |shared|
    requires left < |nodes| && right < |nodes|
  {
    nodes[left].behavior == nodes[right].behavior ==>
      Root(parent, depth, left) == Root(parent, depth, right) && s in shared[left] && s in shared[right]
  }

  method JoinPair(
    nodes: seq<Node>, parent: array<nat>, shared: array<set<string>>,
    left: nat, right: nat, s: string, ghost depth: seq<nat>)
    returns (ghost depth': seq<nat>)
    requires Sound(nodes, parent[..], depth, shared[..])
    requires left < |nodes| && right < |nodes|
    requires s in nodes[left].identifiers && s in nodes[right].identifiers
    requires left == right ==> nodes[left].identifiers == [s, s]
    modifies parent, shared
    ensures Sound(nodes, parent[..], depth', shared[..])
    ensures Grows(old(parent[..]), depth, old(shared[..]), parent[..], depth', shared[..])
    ensures PairJoined(nodes, parent[..], depth', shared[..], left, right, s)
  {
    depth' := depth;
    if nodes[left].behavior == nodes[right].behavior {
      ghost var before := parent[..];
      depth' := Union(parent, left, right, depth);
      ghost var after := parent[..];
      forall i, j | 0 <= i < |nodes| && 0 <= j < |nodes| && Root(after, depth', i) == Root(after, depth', j)
        ensures Connected(nodes, i, j)
      {
        JoinedRootsConnect(nodes, before, depth, after, depth', left, right, i, j);
      }
      shared[left] := shared[left] + {s};
      shared[right] := shared[right] + {s};
    }
  }

  lemma JoinedRootsConnect(
    nodes: seq<Node>, before: seq<nat>, depth: seq<nat>, after: seq<nat>, depth': seq<nat>,
    left: nat, right: nat, i: nat, j: nat)
    requires Joins(before, depth, after, depth', left, right) && |before| == |nodes|
    requires i < |nodes| && j < |nodes| && Linked(nodes, left, right)
    requires forall a, b ::
               (0 <= a < |nodes| && 0 <= b < |nodes| && Root(before, depth, a) == Root(before, depth, b))
               ==> Connected(nodes, a, b)
    requires Root(after, depth', i) == Root(after, depth', j)
    ensures Connected(nodes, i, j)
  {
    LinkedConnects(nodes, left, right);
    ConnectedSymmetric(nodes, left, right);
    var rightRoot := Root(before, depth, right);
    if Root(before, depth, i) == rightRoot && Root(before, depth, j) != rightRoot {
      ConnectedTransitive(nodes, i, right, left);
      ConnectedTransitive(nodes, i, left, j);
    } else if Root(before, depth, i) != rightRoot && Root(before, depth, j) == rightRoot {
      ConnectedTransitive(nodes, i, left, right);
      ConnectedTransitive(nodes, i, right, j);
    }
  }

  ghost predicate RowJoined(
    nodes: seq<Node>, parent: seq<nat>, depth: seq<nat>, shared: seq<set<string>>,
    group: seq<nat>, a: nat, upTo: nat, s: string)
    requires Forest(parent, depth) && |parent| == |nodes| == |shared|
    requires a < |group| && upTo <= |group| && forall k :: 0 <= k < |group| ==> group[k] < |nodes|
  {
    forall b :: a < b < upTo ==> PairJoined(nodes, parent, depth, shared, group[a], group[b], s)
  }

  ghost predicate GroupJoined(
    nodes: seq<Node>, parent: seq<nat>, depth: seq<nat>, shared: seq<set<string>>,
    group: seq<nat>, upTo: nat, s: string)
    requires Forest(parent, depth) && |parent| == |nodes| == |shared|
    requires upTo <= |group| && forall k :: 0 <= k < |group| ==> group[k] < |nodes|
  {
    forall a :: 0 <= a < upTo ==> RowJoined(nodes, parent, depth, shared, group, a, |group|, s)
  }

  method JoinRow(
    nodes: seq<Node>, parent: array<nat>, shared: array<set<string>>,
    groups: map<string, seq<nat>>, s: string, a: nat, ghost depth: seq<nat>)
    returns (ghost depth': seq<nat>)
    requires Sound(nodes, parent[..], depth, shared[..])
    requires Grouped(nodes, groups) && s in groups && a < |groups[s]|
    modifies parent, shared
    ensures Sound(nodes, parent[..], depth', shared[..])
    ensures Grows(old(parent[..]), depth, old(shared[..]), parent[..], depth', shared[..])
    ensures RowJoined(nodes, parent[..], depth', shared[..], groups[s], a, |groups[s]|, s)
  {
    var group := groups[s];
    depth' := depth;
    for b := a + 1 to |group|
      invariant Sound(nodes, parent[..], depth', shared[..])
      invariant Grows(old(parent[..]), depth, old(shared[..]), parent[..], depth', shared[..])
      invariant RowJoined(nodes, parent[..], depth', shared[..], group, a, b, s)
    {
      ghost var before, depthBefore, sharedBefore := parent[..], depth', shared[..];
      depth' := JoinPair(nodes, parent, shared, group[a], group[b], s, depth');
      GrowthKeepsRow(nodes, before, depthBefore, sharedBefore, parent[..], depth', shared[..], group, a, b, s);
    }
  }

  method JoinGroup(
    nodes: seq<Node>, parent: array<nat>, shared: array<set<string>>,
    groups: map<string, seq<nat>>, s: string, ghost depth: seq<nat>)
    returns (ghost depth': seq<nat>)
    requires Sound(nodes, parent[..], depth, shared[..])
    requires Grouped(nodes, groups) && s in groups
    modifies parent, shared
    ensures Sound(nodes, parent[..], depth', shared[..])
    ensures Grows(old(parent[..]), depth, old(shared[..]), parent[..], depth', shared[..])
    ensures GroupJoined(nodes, parent[..], depth', shared[..], groups[s], |groups[s]|, s)
  {
    var group := groups[s];
    depth' := depth;
    for a := 0 to |group|
      invariant Sound(nodes, parent[..], depth', shared[..])
      invariant Grows(old(parent[..]), depth, old(shared[..]), parent[..], depth', shared[..])
      invariant GroupJoined(nodes, parent[..], depth', shared[..], group, a, s)
    {
      ghost var before, depthBefore, sharedBefore := parent[..], depth', shared[..];
      depth' := JoinRow(nodes, parent, shared, groups, s, a, depth');
      GrowthKeepsGroup(nodes, before, depthBefore, sharedBefore, parent[..], depth', shared[..], group, a, s);
    }
  }

  method JoinAll(
    nodes: seq<Node>, parent: array<nat>, shared: array<set<string>>,
    groups: map<string, seq<nat>>, order: seq<string>, ghost depth: seq<nat>)
    returns (ghost depth': seq<nat>)
    requires Sound(nodes, parent[..], depth, shared[..])
    requires Grouped(nodes, groups) && forall s :: s in order <==> s in groups
    modifies parent, shared
    ensures Sound(nodes, parent[..], depth', shared[..])
    ensures forall s :: s in groups ==>
              GroupJoined(nodes, parent[..], depth', shared[..], groups[s], |groups[s]|, s)
  {
    depth' := depth;
    for k := 0 to |order|
      invariant Sound(nodes, parent[..], depth', shared[..])
      invariant forall s :: s in order[..k] ==>
                  s in groups && GroupJoined(nodes, parent[..], depth', shared[..], groups[s], |groups[s]|, s)
    {
      ghost var before, depthBefore, sharedBefore := parent[..], depth', shared[..];
      assert order[k] in order;
      depth' := JoinGroup(nodes, parent, shared, groups, order[k], depth');
      forall s | s in order[..k]
        ensures GroupJoined(nodes, parent[..], depth', shared[..], groups[s], |groups[s]|, s)
      {
        GrowthKeepsGroup(nodes, before, depthBefore, sharedBefore, parent[..], depth', shared[..], groups[s], |groups[s]|, s);
      }
      assert order[..k + 1] == order[..k] + [order[k]];
    }
    assert order[..|order|] == order;
  }

  lemma GrowthKeepsRow(
    nodes: seq<Node>, parent: seq<nat>, depth: seq<nat>, shared: seq<set<string>>,
    parent': seq<nat>, depth': seq<nat>, shared': seq<set<string>>, group: seq<nat>, a: nat, upTo: nat, s: string)
    requires Grows(parent, depth, shared, parent', depth', shared') && |parent| == |nodes|
    requires a < |group| && upTo <= |group| && forall k :: 0 <= k < |group| ==> group[k] < |nodes|
    requires RowJoined(nodes, parent, depth, shared, group, a, upTo, s)
    ensures RowJoined(nodes, parent', depth', shared', group, a, upTo, s)
  {
  }

  lemma GrowthKeepsGroup(
    nodes: seq<Node>, parent: seq<nat>, depth: seq<nat>, shared: seq<set<string>>,
    parent': seq<nat>, depth': seq<nat>, shared': seq<set<string>>, group: seq<nat>, upTo: nat, s: string)
    requires Grows(parent, depth, shared, parent', depth', shared') && |parent| == |nodes|
    requires upTo <= |group| && forall k :: 0 <= k < |group| ==> group[k] < |nodes|
    requires GroupJoined(nodes, parent, depth, shared, group, upTo, s)
    ensures GroupJoined(nodes, parent', depth', shared', group, upTo, s)
  {
    forall a | 0 <= a < upTo ensures RowJoined(nodes, parent', depth', shared', group, a, |group|, s) {
      assert RowJoined(nodes, parent, depth, shared, group, a, |group|, s);
      GrowthKeepsRow(nodes, parent, depth, shared, parent', depth', shared', group, a, |group|, s);
    }
  }

  // ----- Collecting the components -----

  ghost predicate HasPartner(nodes: seq<Node>, i: nat) {
    exists j :: j in ClassOf(nodes, i) && j != i
  }

  /** A component is the class of an offer with a partner, named by the first identifier it shares. */
  ghost predicate IsComponent(nodes: seq<Node>, c: Component) {
    IsLabel(nodes, c.members, c.identifier)
    && exists i :: 0 <= i < |nodes| && HasPartner(nodes, i) && c.members == ClassOf(nodes, i)
  }

  ghost predicate Covered(nodes: seq<Node>, components: seq<Component>, i: nat) {
    exists a :: 0 <= a < |components| && components[a].members == ClassOf(nodes, i)
  }

  /** Exactly the classes with a partner, each once. */
  ghost predicate AreComponents(nodes: seq<Node>, components: seq<Component>) {
    (forall a :: 0 <= a < |components| ==> IsComponent(nodes, components[a]))
    && (forall i :: 0 <= i < |nodes| && HasPartner(nodes, i) ==> Covered(nodes, components, i))
    && forall a, b :: 0 <= a < b < |components| ==> components[a].members !! components[b].members
  }

  /** At the end of joining, equal roots mean connected and nothing else. */
  lemma RootsDecideConnection(
    nodes: seq<Node>, parent: seq<nat>, depth: seq<nat>, shared: seq<set<string>>, groups: map<string, seq<nat>>)
    requires Sound(nodes, parent, depth, shared) && Grouped(nodes, groups)
    requires forall s :: s in groups ==> GroupJoined(nodes, parent, depth, shared, groups[s], |groups[s]|, s)
    requires forall i, s :: 0 <= i < |nodes| && s in nodes[i].identifiers ==> Lists(groups, s, i)
    ensures forall i, j :: 0 <= i < |nodes| && 0 <= j < |nodes| ==>
              (Connected(nodes, i, j) <==> Root(parent, depth, i) == Root(parent, depth, j))
  {
    forall i, j | 0 <= i < |nodes| && 0 <= j < |nodes| && Connected(nodes, i, j)
      ensures Root(parent, depth, i) == Root(parent, depth, j)
    {
      var path :| IsChain(nodes, path) && path[0] == i && path[|path| - 1] == j;
      ChainSharesRoot(nodes, parent, depth, shared, groups, path);
    }
  }

  lemma LinkedPairJoined(
    nodes: seq<Node>, parent: seq<nat>, depth: seq<nat>, shared: seq<set<string>>, groups: map<string, seq<nat>>,
    i: nat, j: nat, s: string)
    requires Sound(nodes, parent, depth, shared) && Grouped(nodes, groups)
    requires forall s :: s in groups ==> GroupJoined(nodes, parent, depth, shared, groups[s], |groups[s]|, s)
    requires forall i, s :: 0 <= i < |nodes| && s in nodes[i].identifiers ==> Lists(groups, s, i)
    requires i < |nodes| && j < |nodes| && i != j && nodes[i].behavior == nodes[j].behavior
    requires s in nodes[i].identifiers && s in nodes[j].identifiers
    ensures Root(parent, depth, i) == Root(parent, depth, j) && s in shared[i] && s in shared[j]
  {
    var group := groups[s];
    assert Lists(groups, s, i) && Lists(groups, s, j);
    var a :| 0 <= a < |group| && group[a] == i;
    var b :| 0 <= b < |group| && group[b] == j;
    assert RowJoined(nodes, parent, depth, shared, group, a, |group|, s);
    assert RowJoined(nodes, parent, depth, shared, group, b, |group|, s);
    if a < b {
      assert PairJoined(nodes, parent, depth, shared, group[a], group[b], s);
    } else {
      assert PairJoined(nodes, parent, depth, shared, group[b], group[a], s);
    }
  }

  lemma {:induction false} ChainSharesRoot(
    nodes: seq<Node>, parent: seq<nat>, depth: seq<nat>, shared: seq<set<string>>, groups: map<string, seq<nat>>,
    path: seq<nat>)
    requires Sound(nodes, parent, depth, shared) && Grouped(nodes, groups)
    requires forall s :: s in groups ==> GroupJoined(nodes, parent, depth, shared, groups[s], |groups[s]|, s)
    requires forall i, s :: 0 <= i < |nodes| && s in nodes[i].identifiers ==> Lists(groups, s, i)
    requires IsChain(nodes, path)
    ensures Root(parent, depth, path[0]) == Root(parent, depth, path[|path| - 1])
  {
    if |path| > 1 {
      var rest := path[1..];
      forall k | 0 <= k < |rest| - 1 ensures Linked(nodes, rest[k], rest[k + 1]) {
        assert Linked(nodes, path[k + 1], path[k + 1 + 1]);
      }
      ChainSharesRoot(nodes, parent, depth, shared, groups, rest);
      assert Linked(nodes, path[0], path[0 + 1]);
      if path[0] != path[1] {
        var s :| s in nodes[path[0]].identifiers && s in nodes[path[1]].identifiers;
        LinkedPairJoined(nodes, parent, depth, shared, groups, path[0], path[1], s);
      }
    }
  }

  /** An offer with a partner has a link to a different offer. */
  lemma PartnerMeansLink(nodes: seq<Node>, i: nat)
    requires i < |nodes| && HasPartner(nodes, i)
    ensures exists j :: 0 <= j < |nodes| && j != i && Linked(nodes, i, j)
  {
    var j :| j in ClassOf(nodes, i) && j != i;
    var path :| IsChain(nodes, path) && path[0] == i && path[|path| - 1] == j;
    var k := 1;
    while path[k] == i
      invariant 1 <= k < |path| && path[k - 1] == i
      decreases |path| - k
    {
      k := k + 1;
    }
    assert Linked(nodes, path[k - 1], path[k - 1 + 1]);
  }

  lemma AtLeastTwo(members: set<nat>, i: nat)
    requires i in members
    ensures |members| >= 2 <==> exists j :: j in members && j != i
  {
    var others := members - {i};
    assert members == others + {i};
    if others != {} {
      var j :| j in others;
      assert |others - {j}| + 1 == |others|;
    }
  }

  lemma SharedIffSharesIdentifier(
    nodes: seq<Node>, parent: seq<nat>, depth: seq<nat>, shared: seq<set<string>>, groups: map<string, seq<nat>>, i: nat)
    requires Sound(nodes, parent, depth, shared) && Grouped(nodes, groups)
    requires forall s :: s in groups ==> GroupJoined(nodes, parent, depth, shared, groups[s], |groups[s]|, s)
    requires forall i, s :: 0 <= i < |nodes| && s in nodes[i].identifiers ==> Lists(groups, s, i)
    requires i < |nodes| && HasPartner(nodes, i)
    ensures forall s :: s in shared[i] <==> SharesIdentifier(nodes, i, s)
    ensures shared[i] != {}
  {
    PartnerMeansLink(nodes, i);
    var k :| 0 <= k < |nodes| && k != i && Linked(nodes, i, k);
    var common :| common in nodes[i].identifiers && common in nodes[k].identifiers;
    LinkedPairJoined(nodes, parent, depth, shared, groups, i, k, common);
    forall s | SharesIdentifier(nodes, i, s) ensures s in shared[i] {
      if nodes[i].identifiers == [s, s] {
        assert common == s;
      } else {
        var j :| 0 <= j < |nodes| && j != i && s in nodes[j].identifiers && nodes[i].behavior == nodes[j].behavior;
        LinkedPairJoined(nodes, parent, depth, shared, groups, i, j, s);
      }
    }
  }

  ghost function RootsOf(parent: seq<nat>, depth: seq<nat>): (roots: seq<nat>)
    requires Forest(parent, depth)
    ensures |roots| == |parent|
  {
    seq(|parent|, i requires 0 <= i < |parent| => Root(parent, depth, i))
  }

  ghost function RootsSeen(rootOf: seq<nat>, index: nat): set<nat>
    requires index <= |rootOf|
  {
    set r | r in rootOf[..index]
  }

  ghost function MembersAt(rootOf: seq<nat>, index: nat, root: nat): set<nat>
    requires index <= |rootOf|
  {
    set i: nat | i < index && rootOf[i] == root
  }

  ghost function SharedAt(rootOf: seq<nat>, shared: seq<set<string>>, index: nat, root: nat): set<string>
    requires index <= |rootOf| == |shared|
  {
    set i: nat, s | i < index && rootOf[i] == root && s in shared[i] :: s
  }

  /** The members and shared identifiers gathered under each root from the offers before `index`. */
  ghost predicate GatheredUpTo(
    rootOf: seq<nat>, shared: seq<set<string>>, index: nat,
    members: map<nat, set<nat>>, ids: map<nat, set<string>>, roots: seq<nat>)
    requires index <= |rootOf| == |shared|
  {
    members.Keys == ids.Keys == RootsSeen(rootOf, index)
    && (forall r :: r in roots <==> r in members)
    && (forall a, b :: 0 <= a < b < |roots| ==> roots[a] != roots[b])
    && forall r :: r in members ==> members[r] == MembersAt(rootOf, index, r) && ids[r] == SharedAt(rootOf, shared, index, r)
  }

  function With<T>(m: map<nat, set<T>>, key: nat, more: set<T>): map<nat, set<T>> {
    m[key := (if key in m then m[key] else {}) + more]
  }

  lemma GatherOne(
    rootOf: seq<nat>, shared: seq<set<string>>, index: nat,
    members: map<nat, set<nat>>, ids: map<nat, set<string>>, roots: seq<nat>, root: nat, more: set<string>)
    requires index < |rootOf| == |shared| && GatheredUpTo(rootOf, shared, index, members, ids, roots)
    requires root == rootOf[index] && more == shared[index]
    ensures GatheredUpTo(rootOf, shared, index + 1, With(members, root, {index}), With(ids, root, more),
                         if root in members then roots else roots + [root])
  {
    assert rootOf[..index + 1] == rootOf[..index] + [root];
    assert RootsSeen(rootOf, index + 1) == RootsSeen(rootOf, index) + {root};
    assert With(members, root, {index}).Keys == members.Keys + {root};
    assert With(ids, root, more).Keys == ids.Keys + {root};
    GatheredUnder(rootOf, shared, index, members, ids, root, more);
  }

  lemma GatheredUnder(
    rootOf: seq<nat>, shared: seq<set<string>>, index: nat,
    members: map<nat, set<nat>>, ids: map<nat, set<string>>, root: nat, more: set<string>)
    requires index < |rootOf| == |shared| && root == rootOf[index] && more == shared[index]
    requires members.Keys == ids.Keys == RootsSeen(rootOf, index)
    requires forall r :: r in members ==> members[r] == MembersAt(rootOf, index, r) && ids[r] == SharedAt(rootOf, shared, index, r)
    ensures forall r :: r in With(members, root, {index}) ==>
              With(members, root, {index})[r] == MembersAt(rootOf, index + 1, r)
    ensures forall r :: r in With(ids, root, more) ==>
              With(ids, root, more)[r] == SharedAt(rootOf, shared, index + 1, r)
  {
  }

  lemma NothingGathered(rootOf: seq<nat>, shared: seq<set<string>>)
    requires |rootOf| == |shared|
    ensures GatheredUpTo(rootOf, shared, 0, map[], map[], [])
  {
  }

  method FindIn(parent: array<nat>, index: nat, ghost depth: seq<nat>, ghost rootOf: seq<nat>) returns (root: nat)
    requires Forest(parent[..], depth) && RootsOf(parent[..], depth) == rootOf && index < |rootOf|
    modifies parent
    ensures Forest(parent[..], depth) && RootsOf(parent[..], depth) == rootOf
    ensures root == rootOf[index]
  {
    ghost var before := parent[..];
    root := Find(parent, index, depth);
    SameRootsSameSequence(before, parent[..], depth);
  }

  method Gather(nodes: seq<Node>, parent: array<nat>, shared: array<set<string>>, ghost depth: seq<nat>, ghost rootOf: seq<nat>)
    returns (members: map<nat, set<nat>>, ids: map<nat, set<string>>, roots: seq<nat>)
    requires Forest(parent[..], depth) && RootsOf(parent[..], depth) == rootOf
    requires |rootOf| == |nodes| == shared.Length
    modifies parent
    ensures GatheredUpTo(rootOf, shared[..], |nodes|, members, ids, roots)
  {
    members, ids, roots := map[], map[], [];
    ghost var sharing := shared[..];
    NothingGathered(rootOf, sharing);
    for index := 0 to |nodes|
      invariant Forest(parent[..], depth) && RootsOf(parent[..], depth) == rootOf
      invariant shared[..] == sharing
      invariant GatheredUpTo(rootOf, sharing, index, members, ids, roots)
    {
      var root := FindIn(parent, index, depth, rootOf);
      var more := shared[index];
      GatherOne(rootOf, sharing, index, members, ids, roots, root, more);
      roots := if root in members then roots else roots + [root];
      members, ids := With(members, root, {index}), With(ids, root, more);
    }
  }

  lemma SameRootsSameSequence(before: seq<nat>, after: seq<nat>, depth: seq<nat>)
    requires SameRoots(before, after, depth)
    ensures RootsOf(before, depth) == RootsOf(after, depth)
  {
  }

  /** `Kept` names the roots whose component is returned. */
  predicate Kept(members: map<nat, set<nat>>, ids: map<nat, set<string>>, root: nat) {
    root in members && root in ids && |members[root]| >= 2 && ids[root] != {}
  }

  ghost predicate Selected(
    members: map<nat, set<nat>>, ids: map<nat, set<string>>, roots: seq<nat>, components: seq<Component>, from: seq<nat>)
  {
    |from| == |components|
    && (forall a :: 0 <= a < |from| ==>
          (from[a] in roots && Kept(members, ids, from[a])
           && components[a].members == members[from[a]] && IsFirst(components[a].identifier, ids[from[a]])))
    && (forall r :: r in roots && Kept(members, ids, r) ==> r in from)
    && forall a, b :: 0 <= a < b < |from| ==> from[a] != from[b]
  }

  method Select(members: map<nat, set<nat>>, ids: map<nat, set<string>>, roots: seq<nat>)
    returns (components: seq<Component>, ghost from: seq<nat>)
    requires forall r :: r in roots ==> r in members && r in ids
    requires forall a, b :: 0 <= a < b < |roots| ==> roots[a] != roots[b]
    ensures Selected(members, ids, roots, components, from)
  {
    components, from := [], [];
    for k := 0 to |roots|
      invariant Selected(members, ids, roots[..k], components, from)
    {
      var root := roots[k];
      assert roots[..k + 1] == roots[..k] + [root];
      assert root in roots && root !in roots[..k];
      if |members[root]| >= 2 && ids[root] != {} {
        var identifier := First(ids[root]);
        components := components + [Component(members[root], identifier)];
        from := from + [root];
      }
    }
    assert roots[..|roots|] == roots;
  }

  /** What joining has established when it ends: equal roots decide connection. */
  ghost predicate Resolved(nodes: seq<Node>, rootOf: seq<nat>, shared: seq<set<string>>) {
    |rootOf| == |nodes| == |shared|
    && (forall i, j :: 0 <= i < |nodes| && 0 <= j < |nodes| ==> (Connected(nodes, i, j) <==> rootOf[i] == rootOf[j]))
    && forall i :: 0 <= i < |nodes| && HasPartner(nodes, i) ==> SharingKnown(nodes, shared, i)
  }

  ghost predicate SharingKnown(nodes: seq<Node>, shared: seq<set<string>>, i: nat)
    requires i < |nodes| == |shared|
  {
    shared[i] != {} && forall s :: s in shared[i] <==> SharesIdentifier(nodes, i, s)
  }

  lemma JoiningResolves(
    nodes: seq<Node>, parent: seq<nat>, depth: seq<nat>, shared: seq<set<string>>, groups: map<string, seq<nat>>)
    requires Sound(nodes, parent, depth, shared) && Grouped(nodes, groups)
    requires forall s :: s in groups ==> GroupJoined(nodes, parent, depth, shared, groups[s], |groups[s]|, s)
    requires forall i, s :: 0 <= i < |nodes| && s in nodes[i].identifiers ==> Lists(groups, s, i)
    ensures Resolved(nodes, RootsOf(parent, depth), shared)
  {
    RootsDecideConnection(nodes, parent, depth, shared, groups);
    forall i | 0 <= i < |nodes| && HasPartner(nodes, i) ensures SharingKnown(nodes, shared, i) {
      SharedIffSharesIdentifier(nodes, parent, depth, shared, groups, i);
    }
  }

  lemma GatheredMembers(nodes: seq<Node>, rootOf: seq<nat>, shared: seq<set<string>>, i: nat)
    requires Resolved(nodes, rootOf, shared) && i < |nodes|
    ensures MembersAt(rootOf, |nodes|, rootOf[i]) == ClassOf(nodes, i)
    ensures |ClassOf(nodes, i)| >= 2 <==> HasPartner(nodes, i)
  {
    assert forall j :: 0 <= j < |nodes| ==> (j in MembersAt(rootOf, |nodes|, rootOf[i]) <==> j in ClassOf(nodes, i));
    AtLeastTwo(ClassOf(nodes, i), i);
  }

  lemma GatheredIdentifiers(nodes: seq<Node>, rootOf: seq<nat>, shared: seq<set<string>>, i: nat)
    requires Resolved(nodes, rootOf, shared) && i < |nodes| && HasPartner(nodes, i)
    ensures SharedAt(rootOf, shared, |nodes|, rootOf[i]) != {}
    ensures forall s :: s in SharedAt(rootOf, shared, |nodes|, rootOf[i]) <==> InLabels(nodes, ClassOf(nodes, i), s)
  {
    var gathered := SharedAt(rootOf, shared, |nodes|, rootOf[i]);
    forall j | j in ClassOf(nodes, i) ensures SharingKnown(nodes, shared, j) {
      PartnerOfMember(nodes, i, j);
    }
    assert SharingKnown(nodes, shared, i);
    var s :| s in shared[i];
    assert s in gathered;
    forall s | InLabels(nodes, ClassOf(nodes, i), s) ensures s in gathered {
      var j :| j in ClassOf(nodes, i) && j < |nodes| && SharesIdentifier(nodes, j, s);
      assert rootOf[j] == rootOf[i] && s in shared[j];
    }
    forall s | s in gathered ensures InLabels(nodes, ClassOf(nodes, i), s) {
      var j: nat :| j < |nodes| && rootOf[j] == rootOf[i] && s in shared[j];
      assert j in ClassOf(nodes, i);
      assert SharingKnown(nodes, shared, j);
    }
  }

  lemma FirstIsLabel(nodes: seq<Node>, members: set<nat>, ids: set<string>, identifier: string)
    requires forall s :: s in ids <==> InLabels(nodes, members, s)
    requires IsFirst(identifier, ids)
    ensures IsLabel(nodes, members, identifier)
  {
  }

  lemma SelectedIsComponent(
    nodes: seq<Node>, rootOf: seq<nat>, shared: seq<set<string>>,
    members: map<nat, set<nat>>, ids: map<nat, set<string>>, roots: seq<nat>, components: seq<Component>, from: seq<nat>, a: nat)
    requires Resolved(nodes, rootOf, shared)
    requires GatheredUpTo(rootOf, shared, |nodes|, members, ids, roots)
    requires Selected(members, ids, roots, components, from)
    requires a < |components|
    ensures IsComponent(nodes, components[a])
  {
    assert from[a] in members.Keys;
    var i: nat :| i < |nodes| && rootOf[i] == from[a];
    GatheredMembers(nodes, rootOf, shared, i);
    GatheredIdentifiers(nodes, rootOf, shared, i);
    FirstIsLabel(nodes, ClassOf(nodes, i), ids[from[a]], components[a].identifier);
  }

  lemma PartneredIsSelected(
    nodes: seq<Node>, rootOf: seq<nat>, shared: seq<set<string>>,
    members: map<nat, set<nat>>, ids: map<nat, set<string>>, roots: seq<nat>, components: seq<Component>, from: seq<nat>, i: nat)
    requires Resolved(nodes, rootOf, shared)
    requires GatheredUpTo(rootOf, shared, |nodes|, members, ids, roots)
    requires Selected(members, ids, roots, components, from)
    requires i < |nodes| && HasPartner(nodes, i)
    ensures Covered(nodes, components, i)
  {
    GatheredMembers(nodes, rootOf, shared, i);
    GatheredIdentifiers(nodes, rootOf, shared, i);
    assert rootOf[i] in members.Keys;
    assert Kept(members, ids, rootOf[i]);
    var a :| 0 <= a < |from| && from[a] == rootOf[i];
    assert components[a].members == ClassOf(nodes, i);
  }

  lemma SelectedAreComponents(
    nodes: seq<Node>, rootOf: seq<nat>, shared: seq<set<string>>,
    members: map<nat, set<nat>>, ids: map<nat, set<string>>, roots: seq<nat>, components: seq<Component>, from: seq<nat>)
    requires Resolved(nodes, rootOf, shared)
    requires GatheredUpTo(rootOf, shared, |nodes|, members, ids, roots)
    requires Selected(members, ids, roots, components, from)
    ensures AreComponents(nodes, components)
  {
    forall a | 0 <= a < |components| ensures IsComponent(nodes, components[a]) {
      SelectedIsComponent(nodes, rootOf, shared, members, ids, roots, components, from, a);
    }
    forall i | 0 <= i < |nodes| && HasPartner(nodes, i) ensures Covered(nodes, components, i) {
      PartneredIsSelected(nodes, rootOf, shared, members, ids, roots, components, from, i);
    }
    forall a, b | 0 <= a < b < |components| ensures components[a].members !! components[b].members {
      assert MembersAt(rootOf, |nodes|, from[a]) !! MembersAt(rootOf, |nodes|, from[b]);
    }
  }

  method JoinOffers(nodes: seq<Node>, parent: array<nat>, shared: array<set<string>>) returns (ghost depth: seq<nat>)
    requires AtMostTwo(nodes) && parent.Length == |nodes| == shared.Length
    requires forall i :: 0 <= i < |nodes| ==> parent[i] == i && shared[i] == {}
    modifies parent, shared
    ensures Forest(parent[..], depth)
    ensures Resolved(nodes, RootsOf(parent[..], depth), shared[..])
  {
    var groups, order := GroupByIdentifier(nodes);
    depth := seq(|nodes|, _ => 0);
    forall i: nat | i < |nodes| ensures Connected(nodes, i, i) {
      ConnectedReflexive(nodes, i);
    }
    depth := JoinAll(nodes, parent, shared, groups, order, depth);
    JoiningResolves(nodes, parent[..], depth, shared[..], groups);
  }

  /** `_identifier_components`. */
  method Components(nodes: seq<Node>) returns (components: seq<Component>)
    requires AtMostTwo(nodes)
    ensures AreComponents(nodes, components)
  {
    var parent := new nat[|nodes|](i => i);
    var shared := new set<string>[|nodes|](_ => {});
    ghost var depth := JoinOffers(nodes, parent, shared);
    ghost var rootOf := RootsOf(parent[..], depth);
    var members, ids, roots := Gather(nodes, parent, shared, depth, rootOf);
    ghost var from;
    components, from := Select(members, ids, roots);
    SelectedAreComponents(nodes, rootOf, shared[..], members, ids, roots, components, from);
  }

  // ----- What the components mean -----

  ghost predicate Together(components: seq<Component>, i: nat, j: nat) {
    exists a :: 0 <= a < |components| && i in components[a].members && j in components[a].members
  }

  lemma ConnectedMeet(nodes: seq<Node>, components: seq<Component>, i: nat, j: nat)
    requires HasPartner(nodes, i) ==> Covered(nodes, components, i)
    requires i < |nodes| && i != j && Connected(nodes, i, j)
    ensures Together(components, i, j)
  {
    ConnectedKeepsBehavior(nodes, i, j);
    assert j in ClassOf(nodes, i);
    assert HasPartner(nodes, i);
    ConnectedReflexive(nodes, i);
    var a :| 0 <= a < |components| && components[a].members == ClassOf(nodes, i);
    assert i in components[a].members && j in components[a].members;
  }

  lemma MembersConnect(nodes: seq<Node>, c: Component, i: nat, j: nat)
    requires IsComponent(nodes, c) && i in c.members && j in c.members
    ensures Connected(nodes, i, j)
  {
    var k :| 0 <= k < |nodes| && HasPartner(nodes, k) && c.members == ClassOf(nodes, k);
    ConnectedSymmetric(nodes, k, i);
    ConnectedTransitive(nodes, i, k, j);
  }

  lemma TogetherConnect(nodes: seq<Node>, components: seq<Component>, i: nat, j: nat)
    requires forall a :: 0 <= a < |components| ==> IsComponent(nodes, components[a])
    requires Together(components, i, j)
    ensures Connected(nodes, i, j)
  {
    var a :| 0 <= a < |components| && i in components[a].members && j in components[a].members;
    MembersConnect(nodes, components[a], i, j);
  }

  /** Two offers meet in a returned component exactly when a chain of links joins them. */
  lemma ComponentsAreChains(nodes: seq<Node>, components: seq<Component>, i: nat, j: nat)
    requires AreComponents(nodes, components) && i < |nodes| && j < |nodes| && i != j
    ensures Together(components, i, j) <==> Connected(nodes, i, j)
  {
    if Together(components, i, j) {
      TogetherConnect(nodes, components, i, j);
    } else if Connected(nodes, i, j) {
      ConnectedMeet(nodes, components, i, j);
    }
  }

  lemma ComponentHasOneBehavior(nodes: seq<Node>, c: Component)
    requires IsComponent(nodes, c)
    ensures |c.members| >= 2
    ensures forall i, j :: i in c.members && j in c.members ==>
              i < |nodes| && j < |nodes| && nodes[i].behavior == nodes[j].behavior
  {
    var k :| 0 <= k < |nodes| && HasPartner(nodes, k) && c.members == ClassOf(nodes, k);
    ConnectedReflexive(nodes, k);
    AtLeastTwo(c.members, k);
    forall i | i in c.members ensures i < |nodes| && nodes[i].behavior == nodes[k].behavior {
      ConnectedKeepsBehavior(nodes, k, i);
    }
  }

  /** An offer that shares `s` inside a class with partners shares it with another member. */
  lemma SharedWithMember(nodes: seq<Node>, i: nat, s: string) returns (j: nat)
    requires i < |nodes| && HasPartner(nodes, i) && SharesIdentifier(nodes, i, s)
    ensures j < |nodes| && j != i && Linked(nodes, i, j) && s in nodes[j].identifiers
  {
    if nodes[i].identifiers == [s, s] {
      PartnerMeansLink(nodes, i);
      j :| 0 <= j < |nodes| && j != i && Linked(nodes, i, j);
    } else {
      j :| 0 <= j < |nodes| && j != i && s in nodes[j].identifiers && nodes[i].behavior == nodes[j].behavior;
    }
  }

  ghost predicate NamedByTwo(nodes: seq<Node>, c: Component, i: nat, j: nat) {
    i in c.members && j in c.members && i != j && i < |nodes| && j < |nodes|
    && c.identifier in nodes[i].identifiers && c.identifier in nodes[j].identifiers
  }

  /** A component is named by an identifier that two different members list. */
  lemma ComponentIsNamedByTwo(nodes: seq<Node>, c: Component) returns (i: nat, j: nat)
    requires IsComponent(nodes, c)
    ensures NamedByTwo(nodes, c, i, j)
  {
    var k :| 0 <= k < |nodes| && HasPartner(nodes, k) && c.members == ClassOf(nodes, k);
    i, j := LabelIsListedTwice(nodes, k, c.identifier);
  }

  lemma LabelIsListedTwice(nodes: seq<Node>, k: nat, s: string) returns (i: nat, j: nat)
    requires k < |nodes| && HasPartner(nodes, k) && InLabels(nodes, ClassOf(nodes, k), s)
    ensures NamedByTwo(nodes, Component(ClassOf(nodes, k), s), i, j)
  {
    i :| i in ClassOf(nodes, k) && i < |nodes| && SharesIdentifier(nodes, i, s);
    PartnerOfMember(nodes, k, i);
    j := SharedWithMember(nodes, i, s);
    LinkedConnects(nodes, i, j);
    ConnectedTransitive(nodes, k, i, j);
  }

  lemma PartnerOfMember(nodes: seq<Node>, k: nat, i: nat)
    requires k < |nodes| && HasPartner(nodes, k) && i in ClassOf(nodes, k)
    ensures HasPartner(nodes, i)
  {
    ConnectedSharesClass(nodes, k, i);
    ConnectedReflexive(nodes, k);
    if i != k {
      assert k in ClassOf(nodes, i);
    }
  }

  /** Two different classes with partners never share both their label and their behaviour. */
  lemma DistinctClassesDistinctLabels(nodes: seq<Node>, i: nat, j: nat, identifier: string)
    requires i < |nodes| && j < |nodes| && nodes[i].behavior == nodes[j].behavior
    requires IsLabel(nodes, ClassOf(nodes, i), identifier) && IsLabel(nodes, ClassOf(nodes, j), identifier)
    ensures ClassOf(nodes, i) == ClassOf(nodes, j)
  {
    var a :| a in ClassOf(nodes, i) && a < |nodes| && SharesIdentifier(nodes, a, identifier);
    var b :| b in ClassOf(nodes, j) && b < |nodes| && SharesIdentifier(nodes, b, identifier);
    ConnectedKeepsBehavior(nodes, i, a);
    ConnectedKeepsBehavior(nodes, j, b);
    assert Linked(nodes, a, b);
    LinkedConnects(nodes, a, b);
    ConnectedTransitive(nodes, i, a, b);
    ConnectedSymmetric(nodes, j, b);
    ConnectedTransitive(nodes, i, b, j);
    ConnectedSharesClass(nodes, i, j);
  }

  lemma {:induction false} FirstExists(all: set<string>)
    requires all != {}
    ensures exists s :: IsFirst(s, all)
  {
    var t :| t in all;
    var rest := all - {t};
    if rest == {} {
      assert all == {t};
      assert IsFirst(t, all);
    } else {
      FirstExists(rest);
      var s :| IsFirst(s, rest);
      assert s != t;
      LessTotal(s, t);
      if Less(s, t) {
        assert IsFirst(s, all);
      } else {
        SmallerIsFirst(t, s, rest);
        assert rest + {t} == all;
      }
    }
  }

  lemma SmallerIsFirst(t: string, s: string, rest: set<string>)
    requires IsFirst(s, rest) && Less(t, s)
    ensures IsFirst(t, rest + {t})
  {
    forall u | u in rest && u != s ensures Less(t, u) {
      LessTransitive(t, s, u);
    }
  }

  lemma LabelExists(nodes: seq<Node>, i: nat)
    requires i < |nodes| && HasPartner(nodes, i)
    ensures exists identifier :: IsLabel(nodes, ClassOf(nodes, i), identifier)
  {
    var members := ClassOf(nodes, i);
    var listed := set j, s | j in members && s in nodes[j].identifiers :: s;
    var ids := set s | s in listed && InLabels(nodes, members, s);
    PartnerMeansLink(nodes, i);
    var j :| 0 <= j < |nodes| && j != i && Linked(nodes, i, j);
    var s :| s in nodes[i].identifiers && s in nodes[j].identifiers;
    ConnectedReflexive(nodes, i);
    assert SharesIdentifier(nodes, i, s);
    assert s in ids;
    FirstExists(ids);
    var first :| IsFirst(first, ids);
    FirstIsLabel(nodes, members, ids, first);
  }
}
