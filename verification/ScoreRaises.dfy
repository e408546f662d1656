/** When raising one fact can lower the score of its own model: never, exactly for some shapes of the evidence. */
module ScoreRaises {
  import opened Common
  import opened Lists
  import opened Percentile
  import opened Aggregate
  import opened ScoreValues

  // ----- From the groups up -----

  lemma BenchRises(a: seq<Fact>, b: seq<Fact>, bench: BenchKey)
    requires Groups(a) == Groups(b)
    requires forall k :: BenchOf(k) == bench ==> GroupValue(a, k) <= GroupValue(b, k)
    ensures BenchValue(a, bench) <= BenchValue(b, bench)
    ensures (exists k :: k in Groups(a) && BenchOf(k) == bench && GroupValue(a, k) < GroupValue(b, k)) ==>
              BenchValue(a, bench) < BenchValue(b, bench)
  {
    var inA, inB := (k: GroupKey) => GroupValue(a, k), (k: GroupKey) => GroupValue(b, k);
    var of := (k: GroupKey) => BenchOf(k) == bench;
    forall k ensures k in Sources(a, bench) <==> k in Groups(a) && BenchOf(k) == bench {
      FilterElements(Groups(a), of, k);
    }
    MeanRises(Sources(a, bench), inA, inB);
    if k :| k in Groups(a) && BenchOf(k) == bench && GroupValue(a, k) < GroupValue(b, k) {
      assert k in Sources(a, bench) && inA(k) < inB(k);
    }
  }

  lemma CategoryRises(a: seq<Fact>, b: seq<Fact>, registry: Registry, c: CategoryKey)
    requires Catalogued(a, registry) == Catalogued(b, registry)
    requires forall k: BenchKey :: k.canonicalId == c.canonicalId ==> BenchValue(a, k) <= BenchValue(b, k)
    ensures CategoryScore(a, registry, c).score <= CategoryScore(b, registry, c).score
    ensures (exists k :: k in Catalogued(a, registry) && CategoryOf(registry, k) == c && BenchValue(a, k) < BenchValue(b, k)) ==>
              CategoryScore(a, registry, c).score < CategoryScore(b, registry, c).score
  {
    var inA, inB := (k: BenchKey) => BenchValue(a, k), (k: BenchKey) => BenchValue(b, k);
    forall k ensures k in InCategory(a, registry, c) <==> k in Catalogued(a, registry) && CategoryOf(registry, k) == c {
      FilterElements(Catalogued(a, registry), k => CategoryOf(registry, k) == c, k);
    }
    MeanRises(InCategory(a, registry, c), inA, inB);
    if k :| k in Catalogued(a, registry) && CategoryOf(registry, k) == c && BenchValue(a, k) < BenchValue(b, k) {
      assert k in InCategory(a, registry, c) && inA(k) < inB(k);
    }
  }

  lemma GeneralRises(a: seq<Fact>, b: seq<Fact>, registry: Registry, id: string)
    requires Catalogued(a, registry) == Catalogued(b, registry)
    requires forall k: BenchKey :: k.canonicalId == id ==> BenchValue(a, k) <= BenchValue(b, k)
    ensures General(a, registry, id).score <= General(b, registry, id).score
    ensures (exists k :: k in Catalogued(a, registry) && k.canonicalId == id && BenchValue(a, k) < BenchValue(b, k)) ==>
              General(a, registry, id).score < General(b, registry, id).score
  {
    var inA := (c: CategoryKey) => CategoryScore(a, registry, c).score;
    var inB := (c: CategoryKey) => CategoryScore(b, registry, c).score;
    forall c | c in CategoriesOf(a, registry, id) ensures inA(c) <= inB(c) {
      CategoriesAreOwn(a, registry, id, c);
      CategoryRises(a, b, registry, c);
    }
    MeanRises(CategoriesOf(a, registry, id), inA, inB);
    if k :| k in Catalogued(a, registry) && k.canonicalId == id && BenchValue(a, k) < BenchValue(b, k) {
      var c := CategoryOf(registry, k);
      CategoryRises(a, b, registry, c);
      KeysAreThose(Catalogued(a, registry), k => CategoryOf(registry, k), c);
      FilterElements(Categories(a, registry), (c: CategoryKey) => c.canonicalId == id, c);
      assert c in CategoriesOf(a, registry, id) && inA(c) < inB(c);
    }
  }

  /** The same categories, none with a lower score. */
  ghost predicate NoneLower(before: map<string, Score>, after: map<string, Score>) {
    before.Keys == after.Keys && forall name :: name in before ==> before[name].score <= after[name].score
  }

  lemma LegacyRises(own: map<string, Score>, raised: map<string, Score>, general: Score, higher: Score)
    requires NoneLower(own, raised) && general.score <= higher.score
    ensures NoneLower(WithLegacy(own, general), WithLegacy(raised, higher))
  {
  }

  lemma OwnRises(a: seq<Fact>, b: seq<Fact>, registry: Registry, id: string)
    requires Catalogued(a, registry) == Catalogued(b, registry)
    requires forall k: BenchKey :: k.canonicalId == id ==> BenchValue(a, k) <= BenchValue(b, k)
    ensures NoneLower(OwnScores(a, registry, id), OwnScores(b, registry, id))
  {
    var m, n := OwnScores(a, registry, id), OwnScores(b, registry, id);
    forall name ensures name in m <==> name in n {
      OwnScoresByName(a, registry, id, name);
      OwnScoresByName(b, registry, id, name);
    }
    forall name | name in m ensures m[name].score <= n[name].score {
      CategoryRises(a, b, registry, CategoryKey(id, name));
    }
  }

  /** The groups of a model decide how its scores move. */
  lemma ScoresRise(a: seq<Fact>, b: seq<Fact>, registry: Registry, id: string)
    requires Groups(a) == Groups(b)
    requires forall k: GroupKey :: k.canonicalId == id ==> GroupValue(a, k) <= GroupValue(b, k)
    ensures id in Models(a, registry) <==> id in Models(b, registry)
    ensures NoneLower(ScoresOf(a, registry, id), ScoresOf(b, registry, id))
  {
    forall k: BenchKey | k.canonicalId == id ensures BenchValue(a, k) <= BenchValue(b, k) {
      BenchRises(a, b, k);
    }
    OwnRises(a, b, registry, id);
    GeneralRises(a, b, registry, id);
    LegacyRises(OwnScores(a, registry, id), OwnScores(b, registry, id), General(a, registry, id), General(b, registry, id));
  }

  /** A group of a catalogued benchmark that rises raises the general score. */
  lemma GeneralStrictlyRises(a: seq<Fact>, b: seq<Fact>, registry: Registry, k: GroupKey)
    requires Groups(a) == Groups(b) && k in Groups(a) && k.benchmarkId in registry
    requires forall l: GroupKey :: l.canonicalId == k.canonicalId ==> GroupValue(a, l) <= GroupValue(b, l)
    requires GroupValue(a, k) < GroupValue(b, k)
    ensures k.canonicalId in Models(a, registry) && k.canonicalId in Models(b, registry)
    ensures General(a, registry, k.canonicalId).score < General(b, registry, k.canonicalId).score
  {
    var id, bench := k.canonicalId, BenchOf(k);
    forall l: BenchKey | l.canonicalId == id ensures BenchValue(a, l) <= BenchValue(b, l) {
      BenchRises(a, b, l);
    }
    BenchRises(a, b, bench);
    KeysAreThose(Groups(a), BenchOf, bench);
    FilterElements(Benches(a), (l: BenchKey) => l.benchmarkId in registry, bench);
    GeneralRises(a, b, registry, id);
    KeysAreThose(Catalogued(a, registry), l => CategoryOf(registry, l), CategoryOf(registry, bench));
    assert CategoryOf(registry, bench) in Categories(a, registry);
  }

  // ----- The stages as parts of the facts -----

  predicate Sized(f: Fact, includeAll: bool) {
    Kept(f, includeAll) && Known(f)
  }

  /** The facts that make up the value of a group. */
  predicate InGroup(f: Fact, k: GroupKey, includeAll: bool) {
    Sized(f, includeAll) && GroupOf(f) == k
  }

  predicate InCohort(f: Fact, k: GroupKey, includeAll: bool) {
    Kept(f, includeAll) && Rates(f, k.benchmarkId, k.source)
  }

  function GroupPart(facts: seq<Fact>, k: GroupKey, includeAll: bool): seq<Fact> {
    Filter(facts, f => InGroup(f, k, includeAll))
  }

  function DefaultPart(facts: seq<Fact>, k: GroupKey, includeAll: bool): seq<Fact> {
    Filter(facts, (f: Fact) => InGroup(f, k, includeAll) && f.version == "")
  }

  function CohortPart(facts: seq<Fact>, k: GroupKey, includeAll: bool): seq<Fact> {
    Filter(facts, f => InCohort(f, k, includeAll))
  }

  /** The ratings the group's own ratings are ranked among. */
  ghost function Peers(facts: seq<Fact>, k: GroupKey, includeAll: bool): seq<real> {
    Map(CohortPart(facts, k, includeAll), (f: Fact) => f.value)
  }

  lemma PeersAreCohort(facts: seq<Fact>, k: GroupKey, includeAll: bool)
    ensures Cohort(KeptFacts(facts, includeAll), k.benchmarkId, k.source) == Peers(facts, k, includeAll)
  {
    FilterBoth(facts, f => Kept(f, includeAll), f => Rates(f, k.benchmarkId, k.source), f => InCohort(f, k, includeAll));
  }

  lemma ScoredPart(facts: seq<Fact>, includeAll: bool)
    ensures Scored(KeptFacts(facts, includeAll)) == Filter(facts, f => Sized(f, includeAll))
    ensures Groups(KeptFacts(facts, includeAll)) == Keys(Filter(facts, f => Sized(f, includeAll)), GroupOf)
  {
    var kept := KeptFacts(facts, includeAll);
    FilterBoth(facts, f => Kept(f, includeAll), f => Normalised(kept, f).Some?, f => Sized(f, includeAll));
  }

  lemma PartsAreMembers(facts: seq<Fact>, k: GroupKey, includeAll: bool)
    ensures Members(KeptFacts(facts, includeAll), k) == GroupPart(facts, k, includeAll)
    ensures Defaults(KeptFacts(facts, includeAll), k) == DefaultPart(facts, k, includeAll)
  {
    ScoredPart(facts, includeAll);
    FilterBoth(facts, f => Sized(f, includeAll), f => GroupOf(f) == k, f => InGroup(f, k, includeAll));
    FilterBoth(facts, f => InGroup(f, k, includeAll), (f: Fact) => f.version == "",
               (f: Fact) => InGroup(f, k, includeAll) && f.version == "");
  }

  // ----- The same facts with other values -----

  predicate SameButValue(f: Fact, g: Fact) {
    f.(value := g.value) == g
  }

  ghost predicate SameShape(a: seq<Fact>, b: seq<Fact>) {
    |a| == |b| && forall j :: 0 <= j < |a| ==> SameButValue(a[j], b[j])
  }

  function Raise(facts: seq<Fact>, i: nat, v: real): seq<Fact>
    requires i < |facts|
  {
    facts[i := facts[i].(value := v)]
  }

  lemma SameShapeSameGroups(a: seq<Fact>, b: seq<Fact>, includeAll: bool)
    requires SameShape(a, b)
    ensures Groups(KeptFacts(a, includeAll)) == Groups(KeptFacts(b, includeAll))
  {
    ScoredPart(a, includeAll);
    ScoredPart(b, includeAll);
    forall j | 0 <= j < |a|
      ensures Sized(a[j], includeAll) == Sized(b[j], includeAll) && GroupOf(a[j]) == GroupOf(b[j])
    {
      assert SameButValue(a[j], b[j]);
    }
    AlignedKeys(a, b, f => Sized(f, includeAll), GroupOf);
  }

  /** Ranks follow the weights of the peers. */
  lemma RanksFollow(a: seq<Fact>, b: seq<Fact>, k: GroupKey, includeAll: bool, x: real, y: real)
    requires SameShape(a, b)
    requires forall j :: 0 <= j < |a| && InCohort(a[j], k, includeAll) ==> Weight(a[j].value, x) <= Weight(b[j].value, y)
    ensures |Peers(a, k, includeAll)| == |Peers(b, k, includeAll)| == |CohortPart(a, k, includeAll)|
    ensures Rank(x, Peers(a, k, includeAll)) <= Rank(y, Peers(b, k, includeAll))
    ensures (exists j :: 0 <= j < |a| && InCohort(a[j], k, includeAll) && Weight(a[j].value, x) < Weight(b[j].value, y)) ==>
              (|CohortPart(a, k, includeAll)| > 1 ==> Rank(x, Peers(a, k, includeAll)) < Rank(y, Peers(b, k, includeAll)))
  {
    var rates, at, bt := (f: Fact) => InCohort(f, k, includeAll), (f: Fact) => Weight(f.value, x), (f: Fact) => Weight(f.value, y);
    forall j | 0 <= j < |a| ensures rates(a[j]) == rates(b[j]) {
      assert SameButValue(a[j], b[j]);
    }
    AlignedFilters(a, b, rates, at, bt);
    SumOfMap(Filter(a, rates), (f: Fact) => f.value, p => Weight(p, x), at);
    SumOfMap(Filter(b, rates), (f: Fact) => f.value, p => Weight(p, y), bt);
    var before, after := Peers(a, k, includeAll), Peers(b, k, includeAll);
    RankIsShare(x, before);
    RankIsShare(y, after);
    if |before| > 1 {
      SharesAdd(Total(x, before), Total(y, after), |before| as real);
    }
  }

  /** The rating raised gains on its peers. */
  lemma OwnRankRises(a: seq<Fact>, i: nat, v: real, k: GroupKey, includeAll: bool)
    requires i < |a| && a[i].value <= v
    ensures Rank(a[i].value, Peers(a, k, includeAll)) <= Rank(v, Peers(Raise(a, i, v), k, includeAll))
  {
    RanksFollow(a, Raise(a, i, v), k, includeAll, a[i].value, v);
  }

  lemma TwoPicked<T>(s: seq<T>, p: T -> bool, i: nat, j: nat)
    requires i < j < |s| && p(s[i]) && p(s[j])
    ensures |Filter(s, p)| > 1
  {
    var n := |s| - 1;
    assert s == s[..n] + [s[n]];
    FilterOneMore(s[..n], s[n], p);
    if j < n {
      TwoPicked(s[..n], p, i, j);
    } else {
      FilterElements(s[..n], p, s[..n][i]);
    }
  }

  /** Another rating that is passed or met, or left behind from a tie, loses rank. */
  lemma PassedRankFalls(a: seq<Fact>, i: nat, v: real, j: nat, k: GroupKey, includeAll: bool)
    requires i < |a| && j < |a| && i != j && InCohort(a[i], k, includeAll) && InCohort(a[j], k, includeAll)
    requires a[i].value <= a[j].value <= v && a[i].value < v
    ensures Rank(a[j].value, Peers(Raise(a, i, v), k, includeAll)) < Rank(a[j].value, Peers(a, k, includeAll))
  {
    var b, x := Raise(a, i, v), a[j].value;
    TwoPicked(b, f => InCohort(f, k, includeAll), Min2(i, j), Max2(i, j));
    assert InCohort(b[i], k, includeAll) && Weight(b[i].value, x) < Weight(a[i].value, x);
    RanksFollow(b, a, k, includeAll, x, x);
  }

  function Min2(i: nat, j: nat): nat {
    if i < j then i else j
  }

  function Max2(i: nat, j: nat): nat {
    if i < j then j else i
  }

  /** Nothing but the peers can move a value, and a raise moves them only in its own cohort. */
  lemma PeersElsewhere(a: seq<Fact>, i: nat, v: real, k: GroupKey, includeAll: bool)
    requires i < |a| && !InCohort(a[i], k, includeAll)
    ensures Peers(a, k, includeAll) == Peers(Raise(a, i, v), k, includeAll)
  {
    AlignedSame(a, Raise(a, i, v), f => InCohort(f, k, includeAll));
  }

  lemma ValueElsewhere(a: seq<Fact>, i: nat, v: real, f: Fact, includeAll: bool)
    requires i < |a| && (!IsRating(f) || !InCohort(a[i], GroupOf(f), includeAll))
    ensures ValueOf(KeptFacts(a, includeAll), f) == ValueOf(KeptFacts(Raise(a, i, v), includeAll), f)
  {
    if IsRating(f) {
      PeersElsewhere(a, i, v, GroupOf(f), includeAll);
      PeersAreCohort(a, GroupOf(f), includeAll);
      PeersAreCohort(Raise(a, i, v), GroupOf(f), includeAll);
    }
  }

  /** The other groups of the model stay as they are. */
  lemma OtherGroupStays(a: seq<Fact>, i: nat, v: real, k: GroupKey, includeAll: bool)
    requires i < |a| && k.canonicalId == a[i].canonicalId && k != GroupOf(a[i])
    ensures GroupValue(KeptFacts(a, includeAll), k) == GroupValue(KeptFacts(Raise(a, i, v), includeAll), k)
  {
    var b := Raise(a, i, v);
    PartsAreMembers(a, k, includeAll);
    PartsAreMembers(b, k, includeAll);
    AlignedSame(a, b, f => InGroup(f, k, includeAll));
    AlignedSame(a, b, (f: Fact) => InGroup(f, k, includeAll) && f.version == "");
    forall f | GroupOf(f) == k
      ensures ValueOf(KeptFacts(a, includeAll), f) == ValueOf(KeptFacts(b, includeAll), f)
    {
      ValueElsewhere(a, i, v, f, includeAll);
    }
    SameGroupValue(KeptFacts(a, includeAll), KeptFacts(b, includeAll), k);
  }

  // ----- The group of the raised fact -----

  ghost function Value(facts: seq<Fact>, includeAll: bool): Fact -> real {
    f => ValueOf(KeptFacts(facts, includeAll), f)
  }

  function RatingPart(facts: seq<Fact>, k: GroupKey, includeAll: bool): seq<Fact> {
    Filter(facts, f => InGroup(f, k, includeAll) && IsRating(f))
  }

  /**
   * The shapes of evidence under which a raise is safe. The raised fact is no rating, or a default run, or outweighed
   * by default runs of which none is a rating, or the only rating among tiers, or one of two tiers that are both ratings.
   */
  ghost predicate RaiseIsSafe(facts: seq<Fact>, i: nat, includeAll: bool)
    requires i < |facts|
  {
    var f, k := facts[i], GroupOf(facts[i]);
    if !IsRating(f) || f.version == "" then true
    else if DefaultPart(facts, k, includeAll) != [] then forall d :: d in DefaultPart(facts, k, includeAll) ==> !IsRating(d)
    else |RatingPart(facts, k, includeAll)| == 1 || |RatingPart(facts, k, includeAll)| == |GroupPart(facts, k, includeAll)| == 2
  }

  ghost function DefaultSum(facts: seq<Fact>, k: GroupKey, includeAll: bool): real {
    Sum(DefaultPart(facts, k, includeAll), Value(facts, includeAll))
  }

  lemma DefaultsRise(a: seq<Fact>, b: seq<Fact>, k: GroupKey, includeAll: bool)
    requires |DefaultPart(a, k, includeAll)| == |DefaultPart(b, k, includeAll)| > 0
    ensures DefaultSum(a, k, includeAll) <= DefaultSum(b, k, includeAll) ==>
              GroupValue(KeptFacts(a, includeAll), k) <= GroupValue(KeptFacts(b, includeAll), k)
    ensures DefaultSum(a, k, includeAll) < DefaultSum(b, k, includeAll) ==>
              GroupValue(KeptFacts(a, includeAll), k) < GroupValue(KeptFacts(b, includeAll), k)
  {
    var x, y := DefaultPart(a, k, includeAll), DefaultPart(b, k, includeAll);
    PartsAreMembers(a, k, includeAll);
    PartsAreMembers(b, k, includeAll);
    SharesAdd(Sum(x, Value(a, includeAll)), Sum(y, Value(b, includeAll)), |x| as real);
    GroupMean(a, k, includeAll);
    GroupMean(b, k, includeAll);
  }

  lemma GroupMean(facts: seq<Fact>, k: GroupKey, includeAll: bool)
    requires DefaultPart(facts, k, includeAll) != []
    ensures GroupValue(KeptFacts(facts, includeAll), k)
         == Sum(DefaultPart(facts, k, includeAll), Value(facts, includeAll)) / |DefaultPart(facts, k, includeAll)| as real
  {
    PartsAreMembers(facts, k, includeAll);
    MeanIgnoresOrder(DefaultPart(facts, k, includeAll), DefaultPart(facts, k, includeAll), Value(facts, includeAll),
                     f => ValueOf(KeptFacts(facts, includeAll), f));
  }

  lemma {:induction false} MapAgrees<T, U>(s: seq<T>, f: T -> U, g: T -> U)
    requires forall x :: x in s ==> f(x) == g(x)
    ensures Map(s, f) == Map(s, g)
  {
    if s != [] {
      MapAgrees(s[..|s| - 1], f, g);
    }
  }

  lemma GroupMedian(facts: seq<Fact>, k: GroupKey, includeAll: bool)
    requires DefaultPart(facts, k, includeAll) == []
    ensures GroupValue(KeptFacts(facts, includeAll), k)
         == Median(Map(GroupPart(facts, k, includeAll), Value(facts, includeAll)))
  {
    PartsAreMembers(facts, k, includeAll);
    MapAgrees(GroupPart(facts, k, includeAll), Value(facts, includeAll), f => ValueOf(KeptFacts(facts, includeAll), f));
  }

  lemma SameShapeSameParts(a: seq<Fact>, b: seq<Fact>, k: GroupKey, includeAll: bool)
    requires SameShape(a, b)
    ensures |DefaultPart(a, k, includeAll)| == |DefaultPart(b, k, includeAll)|
    ensures |RatingPart(a, k, includeAll)| == |RatingPart(b, k, includeAll)|
    ensures |GroupPart(a, k, includeAll)| == |GroupPart(b, k, includeAll)|
  {
    forall j | 0 <= j < |a| ensures SameButValue(a[j], b[j]) {
    }
    var zero := (f: Fact) => 0.0;
    AlignedFilters(a, b, (f: Fact) => InGroup(f, k, includeAll) && f.version == "", zero, zero);
    AlignedFilters(a, b, f => InGroup(f, k, includeAll) && IsRating(f), zero, zero);
    AlignedFilters(a, b, f => InGroup(f, k, includeAll), zero, zero);
  }

  /** The tiers rise together with their values. */
  lemma TiersRise(a: seq<Fact>, b: seq<Fact>, k: GroupKey, includeAll: bool)
    requires SameShape(a, b) && DefaultPart(a, k, includeAll) == []
    requires forall j :: 0 <= j < |a| && InGroup(a[j], k, includeAll) ==>
               Value(a, includeAll)(a[j]) <= Value(b, includeAll)(b[j])
    ensures GroupValue(KeptFacts(a, includeAll), k) <= GroupValue(KeptFacts(b, includeAll), k)
  {
    SameShapeSameParts(a, b, k, includeAll);
    forall j | 0 <= j < |a| ensures SameButValue(a[j], b[j]) {
    }
    AlignedFilters(a, b, f => InGroup(f, k, includeAll), Value(a, includeAll), Value(b, includeAll));
    GroupMedian(a, k, includeAll);
    GroupMedian(b, k, includeAll);
    MedianRises(Map(GroupPart(a, k, includeAll), Value(a, includeAll)), Map(GroupPart(b, k, includeAll), Value(b, includeAll)));
  }

  /** A fact that is no rating only rises itself. */
  lemma PlainRises(a: seq<Fact>, i: nat, v: real, j: nat, includeAll: bool)
    requires i < |a| && j < |a| && a[i].value <= v && !IsRating(a[i])
    ensures Value(a, includeAll)(a[j]) <= Value(Raise(a, i, v), includeAll)(Raise(a, i, v)[j])
  {
    ValueElsewhere(a, i, v, a[j], includeAll);
    if j == i {
      HundredthsFollow(a[i].value, v);
    }
  }

  lemma HundredthsFollow(x: real, y: real)
    requires x <= y
    ensures x / 100.0 <= y / 100.0
  {
  }

  lemma PlainRaise(a: seq<Fact>, i: nat, v: real, k: GroupKey, includeAll: bool)
    requires i < |a| && a[i].value <= v && !IsRating(a[i])
    ensures GroupValue(KeptFacts(a, includeAll), k) <= GroupValue(KeptFacts(Raise(a, i, v), includeAll), k)
  {
    var b := Raise(a, i, v);
    forall j | 0 <= j < |a| ensures Value(a, includeAll)(a[j]) <= Value(b, includeAll)(b[j]) {
      PlainRises(a, i, v, j, includeAll);
    }
    SameShapeSameParts(a, b, k, includeAll);
    if DefaultPart(a, k, includeAll) == [] {
      TiersRise(a, b, k, includeAll);
    } else {
      AlignedFilters(a, b, (f: Fact) => InGroup(f, k, includeAll) && f.version == "", Value(a, includeAll), Value(b, includeAll));
      DefaultsRise(a, b, k, includeAll);
    }
  }

  lemma {:induction false} SumIsRanks(s: seq<Fact>, h: Fact -> real, population: seq<real>)
    requires forall f :: f in s ==> h(f) == Rank(f.value, population)
    ensures Sum(s, h) == SumOfRanks(Map(s, (f: Fact) => f.value), population)
  {
    if s != [] {
      var front, last := s[..|s| - 1], s[|s| - 1];
      assert s == front + [last];
      SumIsRanks(front, h, population);
      var values := Map(front, (f: Fact) => f.value);
      assert (values + [last.value])[..|values|] == values;
    }
  }

  lemma PeersAreMadeUp(facts: seq<Fact>, rates: Fact -> bool, d: Fact -> bool, others: Fact -> bool)
    requires forall f :: d(f) ==> rates(f)
    requires forall f :: others(f) == (rates(f) && !d(f))
    ensures MadeUp(Map(Filter(facts, rates), (f: Fact) => f.value), Map(Filter(facts, d), (f: Fact) => f.value),
                   Map(Filter(facts, others), (f: Fact) => f.value))
  {
    var value := (f: Fact) => f.value;
    FilterBoth(facts, rates, d, d);
    FilterBoth(facts, rates, others, others);
    forall x: real
      ensures Total(x, Map(Filter(facts, rates), value))
           == Total(x, Map(Filter(facts, d), value)) + Total(x, Map(Filter(facts, others), value))
    {
      forall f | f in Filter(facts, rates) ensures d(f) == !others(f) {
        FilterElements(facts, rates, f);
      }
      SumSplits(Filter(facts, rates), d, others, (f: Fact) => Weight(f.value, x));
      TotalOf(Filter(facts, rates), x);
      TotalOf(Filter(facts, d), x);
      TotalOf(Filter(facts, others), x);
    }
  }

  lemma TotalOf(s: seq<Fact>, x: real)
    ensures Total(x, Map(s, (f: Fact) => f.value)) == Sum(s, (f: Fact) => Weight(f.value, x))
  {
    SumOfMap(s, (f: Fact) => f.value, p => Weight(p, x), (f: Fact) => Weight(f.value, x));
  }

  lemma SumOfRatings(facts: seq<Fact>, k: GroupKey, includeAll: bool, d: Fact -> bool)
    requires forall f :: d(f) ==> InGroup(f, k, includeAll) && IsRating(f)
    ensures Sum(Filter(facts, d), Value(facts, includeAll))
         == SumOfRanks(Map(Filter(facts, d), (f: Fact) => f.value), Peers(facts, k, includeAll))
  {
    PeersAreCohort(facts, k, includeAll);
    forall f | f in Filter(facts, d) ensures Value(facts, includeAll)(f) == Rank(f.value, Peers(facts, k, includeAll)) {
      FilterElements(facts, d, f);
    }
    SumIsRanks(Filter(facts, d), Value(facts, includeAll), Peers(facts, k, includeAll));
  }

  lemma PeersSize(a: seq<Fact>, b: seq<Fact>, k: GroupKey, includeAll: bool)
    requires SameShape(a, b)
    ensures |Peers(a, k, includeAll)| == |Peers(b, k, includeAll)|
  {
    forall j | 0 <= j < |a| ensures InCohort(a[j], k, includeAll) == InCohort(b[j], k, includeAll) {
      assert SameButValue(a[j], b[j]);
    }
    AlignedFilters(a, b, f => InCohort(f, k, includeAll), f => 0.0, f => 0.0);
    MapSize(CohortPart(a, k, includeAll), (f: Fact) => f.value);
    MapSize(CohortPart(b, k, includeAll), (f: Fact) => f.value);
  }

  lemma PartRises(a: seq<Fact>, i: nat, v: real, d: Fact -> bool)
    requires i < |a| && a[i].value <= v && d(a[i]) && d(Raise(a, i, v)[i])
    ensures Rises(Map(Filter(a, d), (f: Fact) => f.value), Map(Filter(Raise(a, i, v), d), (f: Fact) => f.value))
  {
    AlignedFilters(a, Raise(a, i, v), d, (f: Fact) => f.value, (f: Fact) => f.value);
  }

  /** Elements that do not include the raised one are the same before and after. */
  lemma RestStays(a: seq<Fact>, i: nat, v: real, p: Fact -> bool)
    requires i < |a| && !p(a[i]) && !p(Raise(a, i, v)[i])
    ensures Filter(a, p) == Filter(Raise(a, i, v), p)
  {
    AlignedSame(a, Raise(a, i, v), p);
  }

  lemma RanksRise(a: seq<Fact>, i: nat, v: real, rates: Fact -> bool, d: Fact -> bool, others: Fact -> bool)
    requires i < |a| && a[i].value <= v
    requires forall f :: d(f) ==> rates(f)
    requires forall f :: others(f) == (rates(f) && !d(f))
    requires d(a[i]) && d(Raise(a, i, v)[i])
    requires |Map(Filter(a, rates), (f: Fact) => f.value)| == |Map(Filter(Raise(a, i, v), rates), (f: Fact) => f.value)|
    ensures SumOfRanks(Map(Filter(a, d), (f: Fact) => f.value), Map(Filter(a, rates), (f: Fact) => f.value))
         <= SumOfRanks(Map(Filter(Raise(a, i, v), d), (f: Fact) => f.value),
                       Map(Filter(Raise(a, i, v), rates), (f: Fact) => f.value))
  {
    var b, value := Raise(a, i, v), (f: Fact) => f.value;
    PeersAreMadeUp(a, rates, d, others);
    PeersAreMadeUp(b, rates, d, others);
    RestStays(a, i, v, others);
    PartRises(a, i, v, d);
    TogetherTheyRise(Map(Filter(a, d), value), Map(Filter(b, d), value), Map(Filter(a, others), value),
                     Map(Filter(a, rates), value), Map(Filter(b, rates), value));
  }

  /** The ratings of a part of the group that holds the raised one rise together. */
  lemma RatingsRise(a: seq<Fact>, i: nat, v: real, k: GroupKey, includeAll: bool, d: Fact -> bool)
    requires i < |a| && a[i].value <= v
    requires forall f :: d(f) ==> InGroup(f, k, includeAll) && IsRating(f)
    requires d(a[i]) && d(Raise(a, i, v)[i])
    ensures Sum(Filter(a, d), Value(a, includeAll)) <= Sum(Filter(Raise(a, i, v), d), Value(Raise(a, i, v), includeAll))
  {
    PeersSize(a, Raise(a, i, v), k, includeAll);
    RanksRise(a, i, v, f => InCohort(f, k, includeAll), d, f => InCohort(f, k, includeAll) && !d(f));
    SumOfRatings(a, k, includeAll, d);
    SumOfRatings(Raise(a, i, v), k, includeAll, d);
  }

  lemma {:induction false} MapSize<T, U>(s: seq<T>, f: T -> U)
    ensures |Map(s, f)| == |s|
  {
    if s != [] {
      MapSize(s[..|s| - 1], f);
    }
  }

  /** A default run that is a rating: the default ratings rise together, and the other default runs stay. */
  lemma DefaultRaise(a: seq<Fact>, i: nat, v: real, includeAll: bool)
    requires i < |a| && a[i].value <= v && IsRating(a[i]) && a[i].version == "" && Kept(a[i], includeAll)
    ensures GroupValue(KeptFacts(a, includeAll), GroupOf(a[i]))
         <= GroupValue(KeptFacts(Raise(a, i, v), includeAll), GroupOf(a[i]))
  {
    var b, k := Raise(a, i, v), GroupOf(a[i]);
    var d := (f: Fact) => InGroup(f, k, includeAll) && IsRating(f) && f.version == "";
    RatingsRise(a, i, v, k, includeAll, d);
    DefaultsSplit(a, k, includeAll);
    DefaultsSplit(b, k, includeAll);
    PlainDefaultsStay(a, i, v, k, includeAll);
    SameShapeSameParts(a, b, k, includeAll);
    FilterElements(a, (f: Fact) => InGroup(f, k, includeAll) && f.version == "", a[i]);
    DefaultsRise(a, b, k, includeAll);
  }

  lemma DefaultsSplit(facts: seq<Fact>, k: GroupKey, includeAll: bool)
    ensures Sum(DefaultPart(facts, k, includeAll), Value(facts, includeAll))
         == Sum(Filter(facts, (f: Fact) => InGroup(f, k, includeAll) && IsRating(f) && f.version == ""), Value(facts, includeAll))
            + Sum(Filter(facts, (f: Fact) => InGroup(f, k, includeAll) && !IsRating(f) && f.version == ""), Value(facts, includeAll))
  {
    var isDefault := (f: Fact) => InGroup(f, k, includeAll) && f.version == "";
    var rating := (f: Fact) => InGroup(f, k, includeAll) && IsRating(f) && f.version == "";
    var plain := (f: Fact) => InGroup(f, k, includeAll) && !IsRating(f) && f.version == "";
    forall f | f in DefaultPart(facts, k, includeAll) ensures rating(f) == !plain(f) {
      FilterElements(facts, isDefault, f);
    }
    SumSplits(DefaultPart(facts, k, includeAll), rating, plain, Value(facts, includeAll));
    FilterBoth(facts, isDefault, rating, rating);
    FilterBoth(facts, isDefault, plain, plain);
  }

  lemma PlainDefaultsStay(a: seq<Fact>, i: nat, v: real, k: GroupKey, includeAll: bool)
    requires i < |a| && IsRating(a[i])
    ensures Sum(Filter(a, (f: Fact) => InGroup(f, k, includeAll) && !IsRating(f) && f.version == ""), Value(a, includeAll))
         == Sum(Filter(Raise(a, i, v), (f: Fact) => InGroup(f, k, includeAll) && !IsRating(f) && f.version == ""),
                Value(Raise(a, i, v), includeAll))
  {
    var b := Raise(a, i, v);
    var plain := (f: Fact) => InGroup(f, k, includeAll) && !IsRating(f) && f.version == "";
    RestStays(a, i, v, plain);
    forall f | f in Filter(a, plain) ensures Value(a, includeAll)(f) == Value(b, includeAll)(f) {
      FilterElements(a, plain, f);
      ValueElsewhere(a, i, v, f, includeAll);
    }
    SumIgnoresOrder(Filter(a, plain), Filter(b, plain), Value(a, includeAll), Value(b, includeAll));
  }

  /** Default runs of which none is a rating do not move when a tiered rating is raised. */
  lemma OutweighedRaise(a: seq<Fact>, i: nat, v: real, k: GroupKey, includeAll: bool)
    requires i < |a| && IsRating(a[i]) && a[i].version != "" && DefaultPart(a, k, includeAll) != []
    requires forall d :: d in DefaultPart(a, k, includeAll) ==> !IsRating(d)
    ensures GroupValue(KeptFacts(a, includeAll), k) == GroupValue(KeptFacts(Raise(a, i, v), includeAll), k)
  {
    var b := Raise(a, i, v);
    AlignedSame(a, b, (f: Fact) => InGroup(f, k, includeAll) && f.version == "");
    forall f | f in DefaultPart(a, k, includeAll) ensures Value(a, includeAll)(f) == Value(b, includeAll)(f) {
      ValueElsewhere(a, i, v, f, includeAll);
    }
    SumIgnoresOrder(DefaultPart(a, k, includeAll), DefaultPart(b, k, includeAll), Value(a, includeAll), Value(b, includeAll));
    GroupMean(a, k, includeAll);
    GroupMean(b, k, includeAll);
  }

  /** The only rating among tiers rises, and the other tiers stay. */
  lemma LoneRaise(a: seq<Fact>, i: nat, v: real, includeAll: bool)
    requires i < |a| && a[i].value <= v && IsRating(a[i]) && Kept(a[i], includeAll)
    requires DefaultPart(a, GroupOf(a[i]), includeAll) == [] && |RatingPart(a, GroupOf(a[i]), includeAll)| == 1
    ensures GroupValue(KeptFacts(a, includeAll), GroupOf(a[i]))
         <= GroupValue(KeptFacts(Raise(a, i, v), includeAll), GroupOf(a[i]))
  {
    var b, k := Raise(a, i, v), GroupOf(a[i]);
    forall j | 0 <= j < |a| && InGroup(a[j], k, includeAll)
      ensures Value(a, includeAll)(a[j]) <= Value(b, includeAll)(b[j])
    {
      if j == i {
        OwnRankRises(a, i, v, k, includeAll);
        PeersAreCohort(a, k, includeAll);
        PeersAreCohort(b, k, includeAll);
      } else {
        if IsRating(a[j]) {
          TwoPicked(a, f => InGroup(f, k, includeAll) && IsRating(f), Min2(i, j), Max2(i, j));
        }
        ValueElsewhere(a, i, v, a[j], includeAll);
      }
    }
    TiersRise(a, b, k, includeAll);
  }

  lemma MedianOfTwo(s: seq<Fact>, value: Fact -> real)
    requires |s| == 2
    ensures Median(Map(s, value)) == Sum(s, value) / 2.0
  {
    assert s == [s[0], s[1]];
    MapPair(s[0], s[1], value);
    MedianPair(value(s[0]), value(s[1]));
    MeanPair(s[0], s[1], value);
  }

  lemma AllRatings(facts: seq<Fact>, k: GroupKey, includeAll: bool)
    requires |RatingPart(facts, k, includeAll)| == |GroupPart(facts, k, includeAll)|
    ensures Sum(GroupPart(facts, k, includeAll), Value(facts, includeAll))
         == Sum(RatingPart(facts, k, includeAll), Value(facts, includeAll))
  {
    var inGroup := (f: Fact) => InGroup(f, k, includeAll);
    var rating := (f: Fact) => InGroup(f, k, includeAll) && IsRating(f);
    var plain := (f: Fact) => InGroup(f, k, includeAll) && !IsRating(f);
    forall f | f in GroupPart(facts, k, includeAll) ensures rating(f) == !plain(f) {
      FilterElements(facts, inGroup, f);
    }
    SumSplits(GroupPart(facts, k, includeAll), rating, plain, Value(facts, includeAll));
    FilterBoth(facts, inGroup, rating, rating);
  }

  /** Two tiers, both ratings: what one loses the other wins. */
  lemma PairRaise(a: seq<Fact>, i: nat, v: real, includeAll: bool)
    requires i < |a| && a[i].value <= v && IsRating(a[i]) && Kept(a[i], includeAll)
    requires DefaultPart(a, GroupOf(a[i]), includeAll) == []
    requires |RatingPart(a, GroupOf(a[i]), includeAll)| == |GroupPart(a, GroupOf(a[i]), includeAll)| == 2
    ensures GroupValue(KeptFacts(a, includeAll), GroupOf(a[i]))
         <= GroupValue(KeptFacts(Raise(a, i, v), includeAll), GroupOf(a[i]))
  {
    var b, k := Raise(a, i, v), GroupOf(a[i]);
    SameShapeSameParts(a, b, k, includeAll);
    RatingsRise(a, i, v, k, includeAll, f => InGroup(f, k, includeAll) && IsRating(f));
    AllRatings(a, k, includeAll);
    AllRatings(b, k, includeAll);
    GroupMedian(a, k, includeAll);
    GroupMedian(b, k, includeAll);
    MedianOfTwo(GroupPart(a, k, includeAll), Value(a, includeAll));
    MedianOfTwo(GroupPart(b, k, includeAll), Value(b, includeAll));
  }

  lemma SafeGroupRises(a: seq<Fact>, i: nat, v: real, includeAll: bool)
    requires i < |a| && a[i].value <= v && Kept(a[i], includeAll) && RaiseIsSafe(a, i, includeAll)
    ensures GroupValue(KeptFacts(a, includeAll), GroupOf(a[i]))
         <= GroupValue(KeptFacts(Raise(a, i, v), includeAll), GroupOf(a[i]))
  {
    var k := GroupOf(a[i]);
    if !IsRating(a[i]) {
      PlainRaise(a, i, v, k, includeAll);
    } else if a[i].version == "" {
      DefaultRaise(a, i, v, includeAll);
    } else if DefaultPart(a, k, includeAll) != [] {
      OutweighedRaise(a, i, v, k, includeAll);
    } else if |RatingPart(a, k, includeAll)| == 1 {
      LoneRaise(a, i, v, includeAll);
    } else {
      PairRaise(a, i, v, includeAll);
    }
  }

  /** In a safe shape, raising a fact lowers no score of its model, whatever the values are. */
  lemma SafeRaiseLowersNothing(facts: seq<Fact>, registry: Registry, includeAll: bool, i: nat, v: real)
    requires i < |facts| && Counts(facts[i], registry, includeAll) && facts[i].value <= v
    requires RaiseIsSafe(facts, i, includeAll)
    ensures RaiseLowersNothing(facts, registry, includeAll, i, v)
  {
    CountsIsKept(facts[i], registry, includeAll);
    SafeGroupRises(facts, i, v, includeAll);
    RisenGroup(facts, registry, includeAll, i, v);
  }

  /** The raised fact's model keeps its categories, and none of its scores is lower afterwards. */
  ghost predicate RaiseLowersNothing(facts: seq<Fact>, registry: Registry, includeAll: bool, i: nat, v: real)
    requires i < |facts|
  {
    var before, after := Aggregated(facts, registry, includeAll), Aggregated(Raise(facts, i, v), registry, includeAll);
    var id := facts[i].canonicalId;
    if id in before then id in after && NoneLower(before[id], after[id]) else id !in after
  }

  // ----- Raises that lower a score -----

  lemma FallenGroup(facts: seq<Fact>, registry: Registry, includeAll: bool, i: nat, v: real)
    requires i < |facts| && Counts(facts[i], registry, includeAll)
    requires GroupValue(KeptFacts(Raise(facts, i, v), includeAll), GroupOf(facts[i]))
           < GroupValue(KeptFacts(facts, includeAll), GroupOf(facts[i]))
    ensures !RaiseLowersNothing(facts, registry, includeAll, i, v)
  {
    var a, b, k := KeptFacts(facts, includeAll), KeptFacts(Raise(facts, i, v), includeAll), GroupOf(facts[i]);
    CountsIsKept(facts[i], registry, includeAll);
    SameShapeSameGroups(facts, Raise(facts, i, v), includeAll);
    forall l: GroupKey | l.canonicalId == k.canonicalId ensures GroupValue(b, l) <= GroupValue(a, l) {
      if l != k {
        OtherGroupStays(facts, i, v, l, includeAll);
      }
    }
    GroupIsThere(facts, i, includeAll);
    GeneralStrictlyRises(b, a, registry, k);
    LowerGeneral(facts, registry, includeAll, i, v);
  }

  lemma GroupIsThere(facts: seq<Fact>, i: nat, includeAll: bool)
    requires i < |facts| && Sized(facts[i], includeAll)
    ensures GroupOf(facts[i]) in Groups(KeptFacts(facts, includeAll))
  {
    ScoredPart(facts, includeAll);
    FilterElements(facts, f => Sized(f, includeAll), facts[i]);
    KeysAreThose(Filter(facts, f => Sized(f, includeAll)), GroupOf, GroupOf(facts[i]));
  }

  lemma LowerGeneral(facts: seq<Fact>, registry: Registry, includeAll: bool, i: nat, v: real)
    requires i < |facts|
    requires facts[i].canonicalId in Models(KeptFacts(facts, includeAll), registry)
    requires General(KeptFacts(Raise(facts, i, v), includeAll), registry, facts[i].canonicalId).score
           < General(KeptFacts(facts, includeAll), registry, facts[i].canonicalId).score
    ensures !RaiseLowersNothing(facts, registry, includeAll, i, v)
  {
    var id := facts[i].canonicalId;
    GeneralIsNamed(KeptFacts(facts, includeAll), registry, id);
    GeneralIsNamed(KeptFacts(Raise(facts, i, v), includeAll), registry, id);
  }

  lemma GeneralIsNamed(facts: seq<Fact>, registry: Registry, id: string)
    ensures "general" in ScoresOf(facts, registry, id) && ScoresOf(facts, registry, id)["general"] == General(facts, registry, id)
  {
  }

  /** A raise leaves every other rating of the cohort where it is, or lower. */
  lemma OtherRankNeverRises(a: seq<Fact>, i: nat, v: real, x: real, k: GroupKey, includeAll: bool)
    requires i < |a| && a[i].value <= v
    ensures Rank(x, Peers(Raise(a, i, v), k, includeAll)) <= Rank(x, Peers(a, k, includeAll))
  {
    RanksFollow(Raise(a, i, v), a, k, includeAll, x, x);
  }

  lemma NotPassedStays(a: seq<Fact>, i: nat, v: real, x: real, k: GroupKey, includeAll: bool)
    requires i < |a| && a[i].value <= v && (x < a[i].value || v < x)
    ensures Rank(x, Peers(Raise(a, i, v), k, includeAll)) == Rank(x, Peers(a, k, includeAll))
  {
    RanksFollow(Raise(a, i, v), a, k, includeAll, x, x);
    RanksFollow(a, Raise(a, i, v), k, includeAll, x, x);
  }

  lemma RatedValue(facts: seq<Fact>, f: Fact, k: GroupKey, includeAll: bool)
    requires IsRating(f) && GroupOf(f) == k
    ensures Value(facts, includeAll)(f) == Rank(f.value, Peers(facts, k, includeAll))
  {
    PeersAreCohort(facts, k, includeAll);
  }

  /** A default run that is a rating of the raised fact's own group, and lies on the way. */
  ghost predicate PassesDefault(facts: seq<Fact>, i: nat, v: real, j: nat, includeAll: bool)
    requires i < |facts|
  {
    j < |facts| && InGroup(facts[j], GroupOf(facts[i]), includeAll) && facts[j].version == "" && IsRating(facts[j])
    && facts[i].value <= facts[j].value <= v && facts[i].value < v
  }

  lemma PassingADefault(a: seq<Fact>, i: nat, v: real, j: nat, includeAll: bool)
    requires i < |a| && a[i].version != "" && IsRating(a[i]) && Kept(a[i], includeAll)
    requires PassesDefault(a, i, v, j, includeAll)
    ensures GroupValue(KeptFacts(Raise(a, i, v), includeAll), GroupOf(a[i]))
          < GroupValue(KeptFacts(a, includeAll), GroupOf(a[i]))
  {
    var b, k := Raise(a, i, v), GroupOf(a[i]);
    var isDefault := (f: Fact) => InGroup(f, k, includeAll) && f.version == "";
    forall l | 0 <= l < |a| && isDefault(a[l]) ensures Value(b, includeAll)(b[l]) <= Value(a, includeAll)(a[l]) {
      if IsRating(a[l]) {
        RatedValue(a, a[l], k, includeAll);
        RatedValue(b, a[l], k, includeAll);
        OtherRankNeverRises(a, i, v, a[l].value, k, includeAll);
      } else {
        ValueElsewhere(a, i, v, a[l], includeAll);
      }
    }
    RatedValue(a, a[j], k, includeAll);
    RatedValue(b, a[j], k, includeAll);
    PassedRankFalls(a, i, v, j, k, includeAll);
    assert isDefault(b[j]) && Value(b, includeAll)(b[j]) < Value(a, includeAll)(a[j]);
    AlignedFilters(b, a, isDefault, Value(b, includeAll), Value(a, includeAll));
    FilterElements(a, isDefault, a[j]);
    DefaultsRise(b, a, k, includeAll);
  }

  lemma PassingNoDefault(a: seq<Fact>, i: nat, v: real, includeAll: bool)
    requires i < |a| && a[i].value <= v && a[i].version != "" && IsRating(a[i])
    requires DefaultPart(a, GroupOf(a[i]), includeAll) != []
    requires forall j :: !PassesDefault(a, i, v, j, includeAll)
    ensures GroupValue(KeptFacts(a, includeAll), GroupOf(a[i]))
         <= GroupValue(KeptFacts(Raise(a, i, v), includeAll), GroupOf(a[i]))
  {
    var b, k := Raise(a, i, v), GroupOf(a[i]);
    var isDefault := (f: Fact) => InGroup(f, k, includeAll) && f.version == "";
    if a[i].value == v {
      assert b == a;
    } else {
      forall l | 0 <= l < |a| && isDefault(a[l]) ensures Value(a, includeAll)(a[l]) <= Value(b, includeAll)(b[l]) {
        if IsRating(a[l]) {
          assert !PassesDefault(a, i, v, l, includeAll);
          RatedValue(a, a[l], k, includeAll);
          RatedValue(b, a[l], k, includeAll);
          NotPassedStays(a, i, v, a[l].value, k, includeAll);
        } else {
          ValueElsewhere(a, i, v, a[l], includeAll);
        }
      }
      AlignedFilters(a, b, isDefault, Value(a, includeAll), Value(b, includeAll));
      DefaultsRise(a, b, k, includeAll);
    }
  }

  /**
   * Beside default runs, raising a tiered rating lowers a score of its model exactly when it passes or meets a default
   * run of its own group that is a rating, or leaves it behind from a tie.
   */
  lemma TieredRaiseLowersIff(facts: seq<Fact>, registry: Registry, includeAll: bool, i: nat, v: real)
    requires i < |facts| && Counts(facts[i], registry, includeAll) && facts[i].value <= v
    requires facts[i].unit in {"elo", "arena"} && facts[i].version != ""
    requires DefaultPart(facts, GroupOf(facts[i]), includeAll) != []
    ensures RaiseLowersNothing(facts, registry, includeAll, i, v) <==> forall j :: !PassesDefault(facts, i, v, j, includeAll)
  {
    CountsIsKept(facts[i], registry, includeAll);
    if j :| PassesDefault(facts, i, v, j, includeAll) {
      PassingADefault(facts, i, v, j, includeAll);
      FallenGroup(facts, registry, includeAll, i, v);
    } else {
      PassingNoDefault(facts, i, v, includeAll);
      RisenGroup(facts, registry, includeAll, i, v);
    }
  }

  lemma RisenGroup(facts: seq<Fact>, registry: Registry, includeAll: bool, i: nat, v: real)
    requires i < |facts|
    requires GroupValue(KeptFacts(facts, includeAll), GroupOf(facts[i]))
          <= GroupValue(KeptFacts(Raise(facts, i, v), includeAll), GroupOf(facts[i]))
    ensures RaiseLowersNothing(facts, registry, includeAll, i, v)
  {
    var a, b, id := KeptFacts(facts, includeAll), KeptFacts(Raise(facts, i, v), includeAll), facts[i].canonicalId;
    SameShapeSameGroups(facts, Raise(facts, i, v), includeAll);
    forall k: GroupKey | k.canonicalId == id ensures GroupValue(a, k) <= GroupValue(b, k) {
      if k != GroupOf(facts[i]) {
        OtherGroupStays(facts, i, v, k, includeAll);
      }
    }
    ScoresRise(a, b, registry, id);
  }

  // ----- Every other shape has values for which a raise lowers a score -----

  predicate Plain(f: Fact, k: GroupKey, includeAll: bool) {
    InGroup(f, k, includeAll) && !IsRating(f)
  }

  function IsPlain(k: GroupKey, includeAll: bool): Fact -> bool {
    f => Plain(f, k, includeAll)
  }

  function PlainPart(facts: seq<Fact>, k: GroupKey, includeAll: bool): seq<Fact> {
    Filter(facts, IsPlain(k, includeAll))
  }

  /** The value a fact needs to read as `x`, when it is no rating. */
  function Reading(f: Fact, x: real): real {
    if f.unit == "fraction" then x else 100.0 * x
  }

  function FilledValue(f: Fact, before: nat, plain: Fact -> bool, ones: nat, low: real): real {
    if plain(f) then Reading(f, if before < ones then 1.0 else low) else 0.0
  }

  /** All ratings at nought; of the plain facts, the first `ones` read as one and the rest as `low`. */
  function Fill(facts: seq<Fact>, plain: Fact -> bool, ones: nat, low: real): (filled: seq<Fact>)
    ensures |filled| == |facts|
  {
    if facts == [] then []
    else
      var front, last := facts[..|facts| - 1], facts[|facts| - 1];
      Fill(front, plain, ones, low) + [last.(value := FilledValue(last, |Filter(front, plain)|, plain, ones, low))]
  }

  ghost predicate Filled(f: Fact, g: Fact, plain: Fact -> bool, low: real) {
    SameButValue(f, g) && if plain(f) then g.value == Reading(f, 1.0) || g.value == Reading(f, low) else g.value == 0.0
  }

  lemma {:induction false} FillKeepsShape(facts: seq<Fact>, plain: Fact -> bool, ones: nat, low: real)
    ensures SameShape(facts, Fill(facts, plain, ones, low))
    ensures forall j :: 0 <= j < |facts| ==> Filled(facts[j], Fill(facts, plain, ones, low)[j], plain, low)
  {
    if facts != [] {
      FillKeepsShape(facts[..|facts| - 1], plain, ones, low);
    }
  }

  /** A property that does not look at the value. */
  ghost predicate IgnoresValue(plain: Fact -> bool) {
    forall f, g :: SameButValue(f, g) ==> plain(f) == plain(g)
  }

  function Beyond(m: nat, ones: nat): nat {
    if m < ones then 0 else m - ones
  }

  lemma FillOneMore(front: seq<Fact>, last: Fact, plain: Fact -> bool, ones: nat, low: real)
    requires IgnoresValue(plain)
    ensures var b, n := Fill(front, plain, ones, low), |Filter(front, plain)|;
            var filled := last.(value := FilledValue(last, n, plain, ones, low));
            |Filter(front + [last], plain)| == n + (if plain(last) then 1 else 0)
            && Filter(Fill(front + [last], plain, ones, low), plain)
            == if plain(last) then Filter(b, plain) + [filled] else Filter(b, plain)
  {
    var b, facts := Fill(front, plain, ones, low), front + [last];
    var filled := last.(value := FilledValue(last, |Filter(front, plain)|, plain, ones, low));
    assert facts[..|facts| - 1] == front;
    assert SameButValue(last, filled);
    FilterOneMore(front, last, plain);
    FilterOneMore(b, filled, plain);
  }

  /** How many of the plain facts read as `low`. */
  lemma {:induction false} FillCounts(facts: seq<Fact>, plain: Fact -> bool, ones: nat, low: real, u: Fact -> real)
    requires IgnoresValue(plain)
    requires forall f :: plain(f) ==> u(f.(value := Reading(f, 1.0))) == 0.0 && u(f.(value := Reading(f, low))) == 1.0
    ensures Sum(Filter(Fill(facts, plain, ones, low), plain), u) == Beyond(|Filter(facts, plain)|, ones) as real
  {
    if facts != [] {
      var front, last := facts[..|facts| - 1], facts[|facts| - 1];
      var b := Fill(front, plain, ones, low);
      FillCounts(front, plain, ones, low, u);
      assert facts == front + [last];
      FillOneMore(front, last, plain, ones, low);
      if plain(last) {
        SumOneMore(Filter(b, plain), last.(value := FilledValue(last, |Filter(front, plain)|, plain, ones, low)), u);
      }
    }
  }

  lemma PlainValue(facts: seq<Fact>, f: Fact, x: real, k: GroupKey, includeAll: bool)
    requires Plain(f, k, includeAll) && 0.0 <= x <= 1.0
    ensures Value(facts, includeAll)(f.(value := Reading(f, x))) == x
  {
    assert 100.0 * x / 100.0 == x;
  }

  lemma {:induction false} AllButOne<T>(s: seq<T>, p: T -> bool, u: T -> real, i: nat)
    requires forall j :: 0 <= j < |s| && p(s[j]) ==> u(s[j]) >= 0.0 && (j != i ==> u(s[j]) >= 1.0)
    ensures Sum(Filter(s, p), u) >= |Filter(s, p)| as real - if i < |s| then 1.0 else 0.0
  {
    if s != [] {
      var front, last := s[..|s| - 1], s[|s| - 1];
      AllButOne(front, p, u, i);
      assert s == front + [last];
      FilterOneMore(front, last, p);
      SumOneMore(Filter(front, p), last, u);
    }
  }

  lemma {:induction false} SumOfNoughts<T>(s: seq<T>, u: T -> real)
    requires forall x :: x in s ==> u(x) == 0.0
    ensures Sum(s, u) == 0.0
  {
    if s != [] {
      SumOfNoughts(s[..|s| - 1], u);
      assert s == s[..|s| - 1] + [s[|s| - 1]];
    }
  }

  /** One for a fact that reads as no more than `x`. */
  ghost function Reads(facts: seq<Fact>, includeAll: bool, x: real): Fact -> real {
    f => if Value(facts, includeAll)(f) <= x then 1.0 else 0.0
  }

  /** The tiers of a group that read as no more than `x`, ratings and other facts counted apart. */
  lemma TiersAtMost(facts: seq<Fact>, k: GroupKey, includeAll: bool, x: real)
    ensures AtMost(x, Map(GroupPart(facts, k, includeAll), Value(facts, includeAll)))
         == Sum(RatingPart(facts, k, includeAll), Reads(facts, includeAll, x))
            + Sum(PlainPart(facts, k, includeAll), Reads(facts, includeAll, x))
    ensures |Map(GroupPart(facts, k, includeAll), Value(facts, includeAll))| == |GroupPart(facts, k, includeAll)|
    ensures |GroupPart(facts, k, includeAll)| == |RatingPart(facts, k, includeAll)| + |PlainPart(facts, k, includeAll)|
  {
    var u := Reads(facts, includeAll, x);
    var inGroup := (f: Fact) => InGroup(f, k, includeAll);
    var rating, plain := (f: Fact) => InGroup(f, k, includeAll) && IsRating(f), IsPlain(k, includeAll);
    SumOfMap(GroupPart(facts, k, includeAll), Value(facts, includeAll), UpTo(x), u);
    forall f | f in GroupPart(facts, k, includeAll) ensures rating(f) == !plain(f) {
      FilterElements(facts, inGroup, f);
    }
    SumSplits(GroupPart(facts, k, includeAll), rating, plain, u);
    FilterBoth(facts, inGroup, rating, rating);
    FilterBoth(facts, inGroup, plain, plain);
  }

  lemma AnotherRating(facts: seq<Fact>, i: nat, k: GroupKey, includeAll: bool) returns (j: nat)
    requires i < |facts| && |RatingPart(facts, k, includeAll)| > 1
    ensures j < |facts| && j != i && InGroup(facts[j], k, includeAll) && IsRating(facts[j])
  {
    var rating := (f: Fact) => InGroup(f, k, includeAll) && IsRating(f);
    if forall l :: 0 <= l < |facts| && l != i ==> !rating(facts[l]) {
      AllButOne(facts, rating, f => 0.0, i);
      SumOfNoughts(RatingPart(facts, k, includeAll), f => 0.0);
    }
    j :| 0 <= j < |facts| && j != i && rating(facts[j]);
  }

  /** The values of the plain facts do not change the peers. */
  lemma FilledPeers(facts: seq<Fact>, i: nat, k: GroupKey, includeAll: bool, ones: nat, low: real)
    requires i < |facts|
    ensures var plain := IsPlain(k, includeAll);
            Peers(Fill(facts, plain, ones, low), k, includeAll) == Peers(Fill(facts, plain, 0, 0.0), k, includeAll)
            && Peers(Raise(Fill(facts, plain, ones, low), i, 1.0), k, includeAll)
            == Peers(Raise(Fill(facts, plain, 0, 0.0), i, 1.0), k, includeAll)
  {
    var plain, rates := IsPlain(k, includeAll), (f: Fact) => InCohort(f, k, includeAll);
    var b, c := Fill(facts, plain, ones, low), Fill(facts, plain, 0, 0.0);
    FillKeepsShape(facts, plain, ones, low);
    FillKeepsShape(facts, plain, 0, 0.0);
    forall j | 0 <= j < |facts| ensures rates(b[j]) == rates(c[j]) && (rates(b[j]) ==> b[j] == c[j]) {
      assert Filled(facts[j], b[j], plain, low) && Filled(facts[j], c[j], plain, 0.0);
    }
    AlignedSame(b, c, rates);
    AlignedSame(Raise(b, i, 1.0), Raise(c, i, 1.0), rates);
  }

  lemma FilledReads(
    facts: seq<Fact>, db: seq<Fact>, k: GroupKey, includeAll: bool, ones: nat, low: real, j: nat)
    requires j < |facts| && 0.0 <= low < 1.0 && Plain(facts[j], k, includeAll)
    ensures Value(db, includeAll)(Fill(facts, IsPlain(k, includeAll), ones, low)[j]) in {low, 1.0}
  {
    FillKeepsShape(facts, IsPlain(k, includeAll), ones, low);
    assert Filled(facts[j], Fill(facts, IsPlain(k, includeAll), ones, low)[j], IsPlain(k, includeAll), low);
    PlainValue(db, facts[j], 1.0, k, includeAll);
    PlainValue(db, facts[j], low, k, includeAll);
  }

  lemma FilledCounts(facts: seq<Fact>, db: seq<Fact>, k: GroupKey, includeAll: bool, ones: nat, low: real)
    requires 0.0 <= low < 1.0 && ones <= |PlainPart(facts, k, includeAll)|
    ensures Sum(PlainPart(Fill(facts, IsPlain(k, includeAll), ones, low), k, includeAll), Reads(db, includeAll, low))
         == (|PlainPart(facts, k, includeAll)| - ones) as real
  {
    var plain, u := IsPlain(k, includeAll), Reads(db, includeAll, low);
    forall f | plain(f) ensures u(f.(value := Reading(f, 1.0))) == 0.0 && u(f.(value := Reading(f, low))) == 1.0 {
      PlainValue(db, f, 1.0, k, includeAll);
      PlainValue(db, f, low, k, includeAll);
    }
    PlainIgnoresValue(k, includeAll);
    FillCounts(facts, plain, ones, low, u);
  }

  lemma PlainIgnoresValue(k: GroupKey, includeAll: bool)
    ensures IgnoresValue(IsPlain(k, includeAll))
  {
  }

  /** Filled in, every rating of the cohort is nought. */
  lemma FilledRatings(facts: seq<Fact>, k: GroupKey, includeAll: bool, ones: nat, low: real, j: nat)
    requires j < |facts|
    ensures var b := Fill(facts, IsPlain(k, includeAll), ones, low);
            (InGroup(b[j], k, includeAll) <==> InGroup(facts[j], k, includeAll))
            && (IsRating(b[j]) <==> IsRating(facts[j])) && (IsRating(facts[j]) ==> b[j].value == 0.0)
  {
    FillKeepsShape(facts, IsPlain(k, includeAll), ones, low);
    assert Filled(facts[j], Fill(facts, IsPlain(k, includeAll), ones, low)[j], IsPlain(k, includeAll), low);
  }

  /** The rank of the ratings at nought before the raise, and after. */
  ghost function Mid(facts: seq<Fact>, k: GroupKey, includeAll: bool): real {
    Rank(0.0, Peers(Fill(facts, IsPlain(k, includeAll), 0, 0.0), k, includeAll))
  }

  ghost function Low(facts: seq<Fact>, i: nat, k: GroupKey, includeAll: bool): real
    requires i < |facts|
  {
    Rank(0.0, Peers(Raise(Fill(facts, IsPlain(k, includeAll), 0, 0.0), i, 1.0), k, includeAll))
  }

  lemma LowIsLower(facts: seq<Fact>, i: nat, includeAll: bool)
    requires i < |facts| && Kept(facts[i], includeAll) && IsRating(facts[i])
    requires |RatingPart(facts, GroupOf(facts[i]), includeAll)| > 1
    ensures 0.0 <= Low(facts, i, GroupOf(facts[i]), includeAll) < Mid(facts, GroupOf(facts[i]), includeAll) <= 1.0
  {
    var k := GroupOf(facts[i]);
    var b := Fill(facts, IsPlain(k, includeAll), 0, 0.0);
    var j := AnotherRating(facts, i, k, includeAll);
    FilledRatings(facts, k, includeAll, 0, 0.0, i);
    FilledRatings(facts, k, includeAll, 0, 0.0, j);
    PassedRankFalls(b, i, 1.0, j, k, includeAll);
    RankInRange(0.0, Peers(b, k, includeAll));
    RankInRange(0.0, Peers(Raise(b, i, 1.0), k, includeAll));
  }

  /** Before the raise no more than half of the tiers read as low, and none as less. */
  lemma BeforeTheRaise(facts: seq<Fact>, k: GroupKey, includeAll: bool, ones: nat, low: real)
    requires DefaultPart(facts, k, includeAll) == [] && GroupPart(facts, k, includeAll) != []
    requires 0.0 <= low < Mid(facts, k, includeAll) <= 1.0 && ones <= |PlainPart(facts, k, includeAll)|
    requires 2 * (|PlainPart(facts, k, includeAll)| - ones) <= |GroupPart(facts, k, includeAll)|
    ensures GroupValue(KeptFacts(Fill(facts, IsPlain(k, includeAll), ones, low), includeAll), k) > low
  {
    var b := Fill(facts, IsPlain(k, includeAll), ones, low);
    var value, u := Value(b, includeAll), Reads(b, includeAll, low);
    FillKeepsShape(facts, IsPlain(k, includeAll), ones, low);
    SameShapeSameParts(facts, b, k, includeAll);
    FilledPeers(facts, 0, k, includeAll, ones, low);
    forall f | f in GroupPart(b, k, includeAll) ensures value(f) >= low && (IsRating(f) ==> value(f) > low) {
      FilterElements(b, f => InGroup(f, k, includeAll), f);
      var j :| 0 <= j < |b| && b[j] == f;
      FilledRatings(facts, k, includeAll, ones, low, j);
      if IsRating(f) {
        RatedValue(b, f, k, includeAll);
      } else {
        FilledReads(facts, b, k, includeAll, ones, low, j);
      }
    }
    forall f | f in RatingPart(b, k, includeAll) ensures u(f) == 0.0 {
      FilterElements(b, f => InGroup(f, k, includeAll) && IsRating(f), f);
      FilterElements(b, f => InGroup(f, k, includeAll), f);
    }
    SumOfNoughts(RatingPart(b, k, includeAll), u);
    FilledCounts(facts, b, k, includeAll, ones, low);
    TiersAtMost(b, k, includeAll, low);
    var values := Map(GroupPart(b, k, includeAll), value);
    forall y | y in values ensures low <= y {
      MapElements(GroupPart(b, k, includeAll), value, y);
    }
    MedianAbove(values, low, |PlainPart(facts, k, includeAll)| - ones);
    GroupMedian(b, k, includeAll);
  }

  /** After the raise more than half of the tiers read as low or less. */
  lemma AfterTheRaise(facts: seq<Fact>, i: nat, includeAll: bool, ones: nat, low: real)
    requires i < |facts| && IsRating(facts[i]) && low == Low(facts, i, GroupOf(facts[i]), includeAll)
    requires DefaultPart(facts, GroupOf(facts[i]), includeAll) == []
    requires 0.0 <= low < 1.0 && ones <= |PlainPart(facts, GroupOf(facts[i]), includeAll)|
    requires |GroupPart(facts, GroupOf(facts[i]), includeAll)|
           < 2 * (|GroupPart(facts, GroupOf(facts[i]), includeAll)| - 1 - ones)
    ensures var k := GroupOf(facts[i]);
            GroupValue(KeptFacts(Raise(Fill(facts, IsPlain(k, includeAll), ones, low), i, 1.0), includeAll), k) <= low
  {
    var k := GroupOf(facts[i]);
    var b := Fill(facts, IsPlain(k, includeAll), ones, low);
    var c := Raise(b, i, 1.0);
    var u, rating := Reads(c, includeAll, low), (f: Fact) => InGroup(f, k, includeAll) && IsRating(f);
    FillKeepsShape(facts, IsPlain(k, includeAll), ones, low);
    SameShapeSameParts(facts, b, k, includeAll);
    SameShapeSameParts(b, c, k, includeAll);
    FilledPeers(facts, i, k, includeAll, ones, low);
    forall j | 0 <= j < |c| && rating(c[j]) && j != i ensures u(c[j]) == 1.0 {
      FilledRatings(facts, k, includeAll, ones, low, j);
      RatedValue(c, c[j], k, includeAll);
    }
    AllButOne(c, rating, u, i);
    FilledRatings(facts, k, includeAll, ones, low, i);
    RestStays(b, i, 1.0, IsPlain(k, includeAll));
    FilledCounts(facts, c, k, includeAll, ones, low);
    TiersAtMost(facts, k, includeAll, low);
    TiersAtMost(c, k, includeAll, low);
    MedianUpTo(Map(GroupPart(c, k, includeAll), Value(c, includeAll)), low);
    GroupMedian(c, k, includeAll);
  }

  /** Tiers of which at least two are ratings, and not just those two: some values let the raise of one lower the group. */
  lemma CrowdedTiersFall(facts: seq<Fact>, i: nat, includeAll: bool) returns (b: seq<Fact>)
    requires i < |facts| && Kept(facts[i], includeAll) && IsRating(facts[i])
    requires DefaultPart(facts, GroupOf(facts[i]), includeAll) == []
    requires |RatingPart(facts, GroupOf(facts[i]), includeAll)| > 1 && |GroupPart(facts, GroupOf(facts[i]), includeAll)| > 2
    ensures SameShape(facts, b) && b[i].value == 0.0
    ensures GroupValue(KeptFacts(Raise(b, i, 1.0), includeAll), GroupOf(facts[i]))
          < GroupValue(KeptFacts(b, includeAll), GroupOf(facts[i]))
  {
    var k := GroupOf(facts[i]);
    var m := |PlainPart(facts, k, includeAll)|;
    var ones := if m == 0 then 0 else (m - 1) / 2;
    var low := Low(facts, i, k, includeAll);
    b := Fill(facts, IsPlain(k, includeAll), ones, low);
    TiersAtMost(facts, k, includeAll, low);
    LowIsLower(facts, i, includeAll);
    FillKeepsShape(facts, IsPlain(k, includeAll), ones, low);
    FilledRatings(facts, k, includeAll, ones, low, i);
    BeforeTheRaise(facts, k, includeAll, ones, low);
    AfterTheRaise(facts, i, includeAll, ones, low);
  }

  /** A default run that is a rating: some values let it be passed. */
  lemma PassableDefault(facts: seq<Fact>, i: nat, includeAll: bool) returns (b: seq<Fact>, v: real)
    requires i < |facts| && Kept(facts[i], includeAll) && IsRating(facts[i]) && facts[i].version != ""
    requires exists d :: d in DefaultPart(facts, GroupOf(facts[i]), includeAll) && IsRating(d)
    ensures SameShape(facts, b) && b[i].value <= v
    ensures GroupValue(KeptFacts(Raise(b, i, v), includeAll), GroupOf(facts[i]))
          < GroupValue(KeptFacts(b, includeAll), GroupOf(facts[i]))
  {
    var k := GroupOf(facts[i]);
    var d :| d in DefaultPart(facts, k, includeAll) && IsRating(d);
    FilterElements(facts, (f: Fact) => InGroup(f, k, includeAll) && f.version == "", d);
    var j :| 0 <= j < |facts| && facts[j] == d;
    b, v := Raise(facts, i, d.value), d.value + 1.0;
    assert PassesDefault(b, i, v, j, includeAll);
    PassingADefault(b, i, v, j, includeAll);
  }

  /**
   * Raising a fact never lowers a score of its model, whatever the values of all facts are, exactly in the safe shapes:
   * the fact is no rating, or a default run, or outweighed by default runs of which none is a rating, or the only rating
   * among tiers, or one of two tiers that are both ratings.
   */
  lemma RaisingIsSafeIff(facts: seq<Fact>, registry: Registry, includeAll: bool, i: nat)
    requires i < |facts| && Counts(facts[i], registry, includeAll)
    ensures RaiseIsSafe(facts, i, includeAll) <==>
            forall b: seq<Fact>, v: real :: SameShape(facts, b) && b[i].value <= v ==>
              RaiseLowersNothing(b, registry, includeAll, i, v)
  {
    var k := GroupOf(facts[i]);
    CountsIsKept(facts[i], registry, includeAll);
    if RaiseIsSafe(facts, i, includeAll) {
      forall b: seq<Fact>, v: real | SameShape(facts, b) && b[i].value <= v
        ensures RaiseLowersNothing(b, registry, includeAll, i, v)
      {
        assert SameButValue(facts[i], b[i]);
        SafeInShape(facts, b, i, includeAll);
        SafeRaiseLowersNothing(b, registry, includeAll, i, v);
      }
    } else if DefaultPart(facts, k, includeAll) != [] {
      var b, v := PassableDefault(facts, i, includeAll);
      assert SameButValue(facts[i], b[i]);
      FallenGroup(b, registry, includeAll, i, v);
    } else {
      CrowdedUnlessSafe(facts, i, includeAll);
      var b := CrowdedTiersFall(facts, i, includeAll);
      assert SameButValue(facts[i], b[i]);
      FallenGroup(b, registry, includeAll, i, 1.0);
    }
  }

  lemma CrowdedUnlessSafe(facts: seq<Fact>, i: nat, includeAll: bool)
    requires i < |facts| && Kept(facts[i], includeAll) && IsRating(facts[i])
    requires DefaultPart(facts, GroupOf(facts[i]), includeAll) == [] && !RaiseIsSafe(facts, i, includeAll)
    ensures |RatingPart(facts, GroupOf(facts[i]), includeAll)| > 1 && |GroupPart(facts, GroupOf(facts[i]), includeAll)| > 2
  {
    var k := GroupOf(facts[i]);
    FilterElements(facts, f => InGroup(f, k, includeAll) && IsRating(f), facts[i]);
    TiersAtMost(facts, k, includeAll, 0.0);
  }

  lemma SafeInShape(a: seq<Fact>, b: seq<Fact>, i: nat, includeAll: bool)
    requires SameShape(a, b) && i < |a| && RaiseIsSafe(a, i, includeAll)
    ensures RaiseIsSafe(b, i, includeAll)
  {
    var k := GroupOf(a[i]);
    assert SameButValue(a[i], b[i]);
    SameShapeSameParts(a, b, k, includeAll);
    var isDefault := (f: Fact) => InGroup(f, k, includeAll) && f.version == "";
    forall d | d in DefaultPart(b, k, includeAll) && forall e :: e in DefaultPart(a, k, includeAll) ==> !IsRating(e)
      ensures !IsRating(d)
    {
      FilterElements(b, isDefault, d);
      var j :| 0 <= j < |b| && b[j] == d;
      assert SameButValue(a[j], b[j]);
      FilterElements(a, isDefault, a[j]);
    }
  }
}
