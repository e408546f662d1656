/** What the aggregated scores are worth: readings of facts, runs, tiers, sources, benchmarks and categories in numbers. */
module ScoreValues {
  import opened Common
  import opened Lists
  import opened Percentile
  import opened Aggregate

  // ----- A model's own part of the dictionaries -----

  ghost function OwnFacts(facts: seq<Fact>, id: string): seq<Fact> {
    Filter(Scored(facts), (f: Fact) => f.canonicalId == id)
  }

  ghost function OwnGroups(own: seq<Fact>): seq<GroupKey> {
    Keys(own, GroupOf)
  }

  ghost function OwnBenches(own: seq<Fact>, registry: Registry): seq<BenchKey> {
    Filter(Keys(OwnGroups(own), BenchOf), (b: BenchKey) => b.benchmarkId in registry)
  }

  lemma OwnMembers(facts: seq<Fact>, id: string, k: GroupKey)
    requires k.canonicalId == id
    ensures Members(facts, k) == Filter(OwnFacts(facts, id), f => GroupOf(f) == k)
  {
    FilterTwice(Scored(facts), (f: Fact) => f.canonicalId == id, f => GroupOf(f) == k);
  }

  lemma GroupsOfModel(facts: seq<Fact>, id: string)
    ensures Filter(Groups(facts), (k: GroupKey) => k.canonicalId == id) == OwnGroups(OwnFacts(facts, id))
  {
    FilterKeys(Scored(facts), GroupOf, (k: GroupKey) => k.canonicalId == id, (f: Fact) => f.canonicalId == id);
  }

  lemma OwnSources(facts: seq<Fact>, id: string, b: BenchKey)
    requires b.canonicalId == id
    ensures Sources(facts, b) == Filter(OwnGroups(OwnFacts(facts, id)), k => BenchOf(k) == b)
  {
    FilterTwice(Groups(facts), (k: GroupKey) => k.canonicalId == id, k => BenchOf(k) == b);
    GroupsOfModel(facts, id);
  }

  lemma OwnCatalogued(facts: seq<Fact>, registry: Registry, id: string)
    ensures Filter(Catalogued(facts, registry), (b: BenchKey) => b.canonicalId == id)
         == OwnBenches(OwnFacts(facts, id), registry)
  {
    FilterSwaps(Benches(facts), (b: BenchKey) => b.benchmarkId in registry, (b: BenchKey) => b.canonicalId == id);
    FilterKeys(Groups(facts), BenchOf, (b: BenchKey) => b.canonicalId == id, (k: GroupKey) => k.canonicalId == id);
    GroupsOfModel(facts, id);
  }

  lemma OwnCategories(facts: seq<Fact>, registry: Registry, id: string)
    ensures CategoriesOf(facts, registry, id) == Keys(OwnBenches(OwnFacts(facts, id), registry), b => CategoryOf(registry, b))
  {
    OwnCatalogued(facts, registry, id);
    FilterKeys(Catalogued(facts, registry), b => CategoryOf(registry, b), (c: CategoryKey) => c.canonicalId == id,
               (b: BenchKey) => b.canonicalId == id);
  }

  lemma OwnInCategory(facts: seq<Fact>, registry: Registry, c: CategoryKey)
    ensures InCategory(facts, registry, c)
         == Filter(OwnBenches(OwnFacts(facts, c.canonicalId), registry), b => CategoryOf(registry, b) == c)
  {
    OwnCatalogued(facts, registry, c.canonicalId);
    FilterTwice(Catalogued(facts, registry), (b: BenchKey) => b.canonicalId == c.canonicalId, b => CategoryOf(registry, b) == c);
  }

  lemma ScoredModel(facts: seq<Fact>, registry: Registry, id: string)
    ensures id in Models(facts, registry) <==> CategoriesOf(facts, registry, id) != []
  {
    if id in Models(facts, registry) {
      var c :| c in Categories(facts, registry) && c.canonicalId == id;
      FilterElements(Categories(facts, registry), (c: CategoryKey) => c.canonicalId == id, c);
    } else if CategoriesOf(facts, registry, id) != [] {
      var c := CategoriesOf(facts, registry, id)[0];
      FilterElements(Categories(facts, registry), (c: CategoryKey) => c.canonicalId == id, c);
    }
  }

  lemma CategoriesAreOwn(facts: seq<Fact>, registry: Registry, id: string, c: CategoryKey)
    ensures c in CategoriesOf(facts, registry, id) ==> c.canonicalId == id
  {
    FilterElements(Categories(facts, registry), (c: CategoryKey) => c.canonicalId == id, c);
  }

  lemma OwnScoresByName(facts: seq<Fact>, registry: Registry, id: string, name: string)
    ensures name in OwnScores(facts, registry, id) <==> CategoryKey(id, name) in CategoriesOf(facts, registry, id)
  {
    if name in OwnScores(facts, registry, id) {
      var c :| c in CategoriesOf(facts, registry, id) && c.category == name;
      CategoriesAreOwn(facts, registry, id, c);
    }
  }

  // ----- Small lists -----

  lemma FilterOne<T>(x: T, p: T -> bool)
    ensures Filter([x], p) == if p(x) then [x] else []
  {
    FilterOneMore([], x, p);
    assert [] + [x] == [x];
  }

  lemma FilterPair<T>(x: T, y: T, p: T -> bool)
    ensures Filter([x, y], p) == (if p(x) then [x] else []) + if p(y) then [y] else []
  {
    FilterOne(x, p);
    FilterOneMore([x], y, p);
    assert [x] + [y] == [x, y];
  }

  lemma FilterPick<T>(x: T, y: T, p: T -> bool, picked: T)
    requires if picked == x then p(x) && !p(y) else picked == y && p(y) && !p(x)
    ensures Filter([x, y], p) == [picked]
  {
    FilterPair(x, y, p);
    assert [x] + [] == [x] && [] + [y] == [y];
  }

  lemma KeysPair<T, K>(x: T, y: T, key: T -> K)
    ensures Keys([x], key) == [key(x)]
    ensures Keys([x, y], key) == if key(x) == key(y) then [key(x)] else [key(x), key(y)]
  {
    KeysOneMore([], x, key);
    KeysOneMore([x], y, key);
    assert [] + [x] == [x] && [x] + [y] == [x, y];
  }

  lemma MeanPair<T>(x: T, y: T, f: T -> real)
    ensures Mean([x], f) == f(x) && Mean([x, y], f) == (f(x) + f(y)) / 2.0
  {
    assert [x][..0] == [] && [x, y][..1] == [x];
    assert Sum([x], f) == f(x);
  }

  lemma MapPair<T>(x: T, y: T, f: T -> real)
    ensures Map([x], f) == [f(x)] && Map([x, y], f) == [f(x), f(y)]
  {
    assert [x][..0] == [] && [x, y][..1] == [x];
  }

  lemma MedianPair(x: real, y: real)
    ensures Median([x]) == x && Median([x, y]) == (x + y) / 2.0
  {
    assert [x][1..] == [] && [x, y][1..] == [y];
    assert [y][1..] == [] && [y] + [x] == [y, x] && [x] + [y] == [x, y];
    assert Sort([x]) == [x] && Sort([y]) == [y];
    assert Sort([x, y]) == if x <= y then [x, y] else [y, x];
  }

  // ----- Models with a single benchmark -----

  lemma OneBench(facts: seq<Fact>, registry: Registry, id: string, b: BenchKey)
    requires OwnBenches(OwnFacts(facts, id), registry) == [b] && b.canonicalId == id && b.benchmarkId in registry
    ensures id in Models(facts, registry) && CategoriesOf(facts, registry, id) == [CategoryOf(registry, b)]
    ensures CategoryScore(facts, registry, CategoryOf(registry, b)) == Score(BenchValue(facts, b), 1)
    ensures General(facts, registry, id) == Score(BenchValue(facts, b), 1)
  {
    var c := CategoryOf(registry, b);
    OwnCategories(facts, registry, id);
    KeysPair(b, b, k => CategoryOf(registry, k));
    OwnInCategory(facts, registry, c);
    FilterOne(b, k => CategoryOf(registry, k) == c);
    MeanPair(b, b, k => BenchValue(facts, k));
    MeanPair(c, c, c => CategoryScore(facts, registry, c).score);
    ScoredModel(facts, registry, id);
  }

  lemma OneGroup(facts: seq<Fact>, registry: Registry, id: string, k: GroupKey)
    requires OwnGroups(OwnFacts(facts, id)) == [k] && k.canonicalId == id && k.benchmarkId in registry
    ensures id in Models(facts, registry) && CategoriesOf(facts, registry, id) == [CategoryOf(registry, BenchOf(k))]
    ensures CategoryScore(facts, registry, CategoryOf(registry, BenchOf(k))) == Score(GroupValue(facts, k), 1)
    ensures General(facts, registry, id) == Score(GroupValue(facts, k), 1)
  {
    KeysPair(k, k, BenchOf);
    FilterOne(BenchOf(k), (b: BenchKey) => b.benchmarkId in registry);
    OneBench(facts, registry, id, BenchOf(k));
    OwnSources(facts, id, BenchOf(k));
    FilterOne(k, l => BenchOf(l) == BenchOf(k));
    MeanPair(k, k, l => GroupValue(facts, l));
  }

  lemma OneFact(facts: seq<Fact>, registry: Registry, f: Fact)
    requires OwnFacts(facts, f.canonicalId) == [f] && f.benchmarkId in registry
    ensures OwnGroups([f]) == [GroupOf(f)] && GroupValue(facts, GroupOf(f)) == ValueOf(facts, f)
  {
    var k := GroupOf(f);
    KeysPair(f, f, GroupOf);
    OwnMembers(facts, f.canonicalId, k);
    FilterOne(f, g => GroupOf(g) == k);
    FilterOne(f, (g: Fact) => g.version == "");
    MeanPair(f, f, g => ValueOf(facts, g));
    MapPair(f, f, g => ValueOf(facts, g));
    MedianPair(ValueOf(facts, f), ValueOf(facts, f));
  }

  // ----- Readings -----

  /** Everything known of one model. */
  function OfModel(facts: seq<Fact>, id: string): seq<Fact> {
    Filter(facts, (f: Fact) => f.canonicalId == id)
  }

  /** A fact that makes it into the scores: a known unit, redistributable where that matters, a catalogued benchmark. */
  predicate Counts(f: Fact, registry: Registry, includeAll: bool) {
    f.unit in {"fraction", "pct", "index", "elo", "arena"} && (includeAll || f.redistributable) && f.benchmarkId in registry
  }

  lemma CountsIsKept(f: Fact, registry: Registry, includeAll: bool)
    requires Counts(f, registry, includeAll)
    ensures Kept(f, includeAll) && forall facts :: Normalised(facts, f).Some?
    ensures f.unit in {"elo", "arena"} ==> IsRating(f)
  {
  }

  lemma OwnFactsOf(facts: seq<Fact>, includeAll: bool, id: string)
    ensures var kept := KeptFacts(facts, includeAll);
            OwnFacts(kept, id) == Filter(Filter(OfModel(facts, id), f => Kept(f, includeAll)), f => Normalised(kept, f).Some?)
  {
    var kept := KeptFacts(facts, includeAll);
    var own := (f: Fact) => f.canonicalId == id;
    FilterSwaps(kept, f => Normalised(kept, f).Some?, own);
    FilterSwaps(facts, f => Kept(f, includeAll), own);
  }

  lemma OwnAll(facts: seq<Fact>, registry: Registry, includeAll: bool, id: string)
    requires forall f :: f in OfModel(facts, id) ==> Counts(f, registry, includeAll)
    ensures OwnFacts(KeptFacts(facts, includeAll), id) == OfModel(facts, id)
  {
    OwnFactsOf(facts, includeAll, id);
    forall f | f in OfModel(facts, id)
      ensures Kept(f, includeAll) && Normalised(KeptFacts(facts, includeAll), f).Some?
    {
      CountsIsKept(f, registry, includeAll);
    }
    FilterAll(OfModel(facts, id), f => Kept(f, includeAll));
    FilterAll(OfModel(facts, id), f => Normalised(KeptFacts(facts, includeAll), f).Some?);
  }

  /** The scores of a model that has the value `v` in one category and nothing else. */
  ghost predicate Only(m: map<string, Score>, category: string, v: real) {
    category in m && m[category] == Score(v, 1) && "general" in m && m["general"] == Score(v, 1)
    && (category == "coding" ==> "code" in m && m["code"] == Score(v, 1))
    && m.Keys == {category, "general"} + if category == "coding" then {"code"} else {}
  }

  lemma OnlyLegacy(category: string, v: real)
    ensures Only(WithLegacy(map[category := Score(v, 1)], Score(v, 1)), category, v)
  {
  }

  lemma OnlyOwn(facts: seq<Fact>, registry: Registry, id: string, c: CategoryKey)
    requires CategoriesOf(facts, registry, id) == [c] && c.canonicalId == id
    ensures OwnScores(facts, registry, id) == map[c.category := CategoryScore(facts, registry, c)]
  {
    forall name ensures name in OwnScores(facts, registry, id) <==> name == c.category {
      OwnScoresByName(facts, registry, id, name);
    }
  }

  lemma OnlyValue(facts: seq<Fact>, registry: Registry, includeAll: bool, f: Fact)
    requires OfModel(facts, f.canonicalId) == [f] && Counts(f, registry, includeAll)
    ensures var scores := Aggregated(facts, registry, includeAll);
            f.canonicalId in scores
            && Only(scores[f.canonicalId], registry[f.benchmarkId], ValueOf(KeptFacts(facts, includeAll), f))
  {
    var kept, id := KeptFacts(facts, includeAll), f.canonicalId;
    OwnAll(facts, registry, includeAll, id);
    OneFact(kept, registry, f);
    OneGroup(kept, registry, id, GroupOf(f));
    OnlyOwn(kept, registry, id, CategoryOf(registry, BenchOf(GroupOf(f))));
    OnlyLegacy(registry[f.benchmarkId], ValueOf(kept, f));
  }

  /** A model known by one fraction, percentage or index only: that, cut off at nought and one, is its score. */
  lemma OneFactIsTheScore(facts: seq<Fact>, registry: Registry, includeAll: bool, f: Fact)
    requires OfModel(facts, f.canonicalId) == [f] && Counts(f, registry, includeAll)
    ensures f.canonicalId in Aggregated(facts, registry, includeAll)
    ensures var m := Aggregated(facts, registry, includeAll)[f.canonicalId];
            (f.unit == "fraction" && 0.0 <= f.value <= 1.0 ==> Only(m, registry[f.benchmarkId], f.value))
            && (f.unit in {"pct", "index"} && 0.0 <= f.value <= 100.0 ==> Only(m, registry[f.benchmarkId], f.value / 100.0))
            && (f.unit == "fraction" && f.value > 1.0 ==> Only(m, registry[f.benchmarkId], 1.0))
            && (f.unit in {"pct", "index"} && f.value > 100.0 ==> Only(m, registry[f.benchmarkId], 1.0))
            && (f.unit in {"fraction", "pct", "index"} && f.value < 0.0 ==> Only(m, registry[f.benchmarkId], 0.0))
  {
    OnlyValue(facts, registry, includeAll, f);
  }

  ghost predicate AllLower(lower: map<string, Score>, higher: map<string, Score>) {
    lower.Keys == higher.Keys && forall name :: name in lower ==> lower[name].score < higher[name].score
  }

  lemma RatedIsInCohort(facts: seq<Fact>, includeAll: bool, f: Fact)
    requires f in facts && Kept(f, includeAll) && IsRating(f)
    ensures f.value in Cohort(KeptFacts(facts, includeAll), f.benchmarkId, f.source)
  {
    var kept, rates := KeptFacts(facts, includeAll), (g: Fact) => Rates(g, f.benchmarkId, f.source);
    FilterElements(facts, g => Kept(g, includeAll), f);
    FilterElements(kept, rates, f);
    MapElements(Filter(kept, rates), (g: Fact) => g.value, f.value);
  }

  /** Of two models known by one rating each, in one benchmark by one source, the higher rated scores strictly higher. */
  lemma HigherRatedScoresHigher(facts: seq<Fact>, registry: Registry, includeAll: bool, f: Fact, g: Fact)
    requires OfModel(facts, f.canonicalId) == [f] && OfModel(facts, g.canonicalId) == [g]
    requires Counts(f, registry, includeAll) && Counts(g, registry, includeAll)
    requires f.unit in {"elo", "arena"} && g.unit in {"elo", "arena"} && f.benchmarkId == g.benchmarkId && f.source == g.source
    requires f.value < g.value
    ensures f.canonicalId in Aggregated(facts, registry, includeAll) && g.canonicalId in Aggregated(facts, registry, includeAll)
    ensures AllLower(Aggregated(facts, registry, includeAll)[f.canonicalId],
                     Aggregated(facts, registry, includeAll)[g.canonicalId])
  {
    var kept := KeptFacts(facts, includeAll);
    OnlyValue(facts, registry, includeAll, f);
    OnlyValue(facts, registry, includeAll, g);
    CountsIsKept(f, registry, includeAll);
    CountsIsKept(g, registry, includeAll);
    HigherRatedRanksHigher(facts, includeAll, f, g);
    OnlyOrdered(Aggregated(facts, registry, includeAll), f.canonicalId, g.canonicalId, registry[f.benchmarkId],
                ValueOf(kept, f), ValueOf(kept, g));
  }

  lemma OnlyOrdered(
    scores: map<string, map<string, Score>>, lower: string, higher: string, category: string, v: real, w: real)
    requires lower in scores && higher in scores
    requires Only(scores[lower], category, v) && Only(scores[higher], category, w) && v < w
    ensures AllLower(scores[lower], scores[higher])
  {
  }

  lemma HigherRatedRanksHigher(facts: seq<Fact>, includeAll: bool, f: Fact, g: Fact)
    requires OfModel(facts, f.canonicalId) == [f] && OfModel(facts, g.canonicalId) == [g]
    requires Kept(f, includeAll) && Kept(g, includeAll) && IsRating(f) && IsRating(g)
    requires f.benchmarkId == g.benchmarkId && f.source == g.source && f.value < g.value
    ensures ValueOf(KeptFacts(facts, includeAll), f) < ValueOf(KeptFacts(facts, includeAll), g)
  {
    var cohort := Cohort(KeptFacts(facts, includeAll), f.benchmarkId, f.source);
    FilterElements(facts, (h: Fact) => h.canonicalId == f.canonicalId, f);
    FilterElements(facts, (h: Fact) => h.canonicalId == g.canonicalId, g);
    RatedIsInCohort(facts, includeAll, f);
    RatedIsInCohort(facts, includeAll, g);
    TwoMembers(cohort, f.value, g.value);
    RankIsMonotone(f.value, g.value, cohort);
  }

  lemma TwoMembers(s: seq<real>, x: real, y: real)
    requires x in s && y in s && x != y
    ensures |s| > 1
  {
    var i :| 0 <= i < |s| && s[i] == x;
    var j :| 0 <= j < |s| && s[j] == y;
    assert i != j;
  }

  // ----- Several runs, tiers, sources, benchmarks and categories -----

  lemma OneGroupMembers(facts: seq<Fact>, k: GroupKey)
    requires forall f :: f in OwnFacts(facts, k.canonicalId) ==> GroupOf(f) == k
    ensures Members(facts, k) == OwnFacts(facts, k.canonicalId)
  {
    OwnMembers(facts, k.canonicalId, k);
    FilterAll(OwnFacts(facts, k.canonicalId), f => GroupOf(f) == k);
  }

  lemma TwoRuns(facts: seq<Fact>, f: Fact, g: Fact)
    requires OwnFacts(facts, f.canonicalId) == [f, g] && GroupOf(f) == GroupOf(g) && f.version == g.version == ""
    ensures GroupValue(facts, GroupOf(f)) == (ValueOf(facts, f) + ValueOf(facts, g)) / 2.0
  {
    OneGroupMembers(facts, GroupOf(f));
    FilterAll([f, g], (h: Fact) => h.version == "");
    MeanPair(f, g, h => ValueOf(facts, h));
  }

  lemma LoneMember(facts: seq<Fact>, f: Fact)
    requires Members(facts, GroupOf(f)) == [f]
    ensures GroupValue(facts, GroupOf(f)) == ValueOf(facts, f)
  {
    FilterOne(f, (g: Fact) => g.version == "");
    MeanPair(f, f, g => ValueOf(facts, g));
    MapPair(f, f, g => ValueOf(facts, g));
    MedianPair(ValueOf(facts, f), ValueOf(facts, f));
  }

  lemma TwoGroupValues(facts: seq<Fact>, f: Fact, g: Fact)
    requires OwnFacts(facts, f.canonicalId) == [f, g] && f.canonicalId == g.canonicalId && GroupOf(f) != GroupOf(g)
    ensures OwnGroups([f, g]) == [GroupOf(f), GroupOf(g)]
    ensures GroupValue(facts, GroupOf(f)) == ValueOf(facts, f) && GroupValue(facts, GroupOf(g)) == ValueOf(facts, g)
  {
    KeysPair(f, g, GroupOf);
    OwnMembers(facts, f.canonicalId, GroupOf(f));
    OwnMembers(facts, f.canonicalId, GroupOf(g));
    FilterPick(f, g, h => GroupOf(h) == GroupOf(f), f);
    FilterPick(f, g, h => GroupOf(h) == GroupOf(g), g);
    LoneMember(facts, f);
    LoneMember(facts, g);
  }

  /** Two sources of one benchmark. */
  lemma TwoSources(facts: seq<Fact>, registry: Registry, f: Fact, g: Fact)
    requires OwnFacts(facts, f.canonicalId) == [f, g] && f.canonicalId == g.canonicalId && f.benchmarkId in registry
    requires f.benchmarkId == g.benchmarkId && f.source != g.source
    ensures OwnBenches([f, g], registry) == [BenchOf(GroupOf(f))]
    ensures BenchValue(facts, BenchOf(GroupOf(f))) == (ValueOf(facts, f) + ValueOf(facts, g)) / 2.0
  {
    var k, l, b := GroupOf(f), GroupOf(g), BenchOf(GroupOf(f));
    TwoGroupValues(facts, f, g);
    KeysPair(k, l, BenchOf);
    FilterOne(b, (c: BenchKey) => c.benchmarkId in registry);
    OwnSources(facts, f.canonicalId, b);
    FilterAll([k, l], h => BenchOf(h) == b);
    MeanPair(k, l, h => GroupValue(facts, h));
  }

  lemma TwoBenchValues(facts: seq<Fact>, registry: Registry, f: Fact, g: Fact)
    requires OwnFacts(facts, f.canonicalId) == [f, g] && f.canonicalId == g.canonicalId
    requires f.benchmarkId in registry && g.benchmarkId in registry && f.benchmarkId != g.benchmarkId
    ensures OwnBenches([f, g], registry) == [BenchOf(GroupOf(f)), BenchOf(GroupOf(g))]
    ensures BenchValue(facts, BenchOf(GroupOf(f))) == ValueOf(facts, f)
    ensures BenchValue(facts, BenchOf(GroupOf(g))) == ValueOf(facts, g)
  {
    var k, l := GroupOf(f), GroupOf(g);
    TwoGroupValues(facts, f, g);
    KeysPair(k, l, BenchOf);
    FilterAll([BenchOf(k), BenchOf(l)], (c: BenchKey) => c.benchmarkId in registry);
    LoneSource(facts, f.canonicalId, k, l, k);
    LoneSource(facts, f.canonicalId, k, l, l);
  }

  lemma LoneSource(facts: seq<Fact>, id: string, k: GroupKey, l: GroupKey, one: GroupKey)
    requires OwnGroups(OwnFacts(facts, id)) == [k, l] && k.canonicalId == l.canonicalId == id
    requires BenchOf(k) != BenchOf(l) && (one == k || one == l)
    ensures BenchValue(facts, BenchOf(one)) == GroupValue(facts, one)
  {
    OwnSources(facts, id, BenchOf(one));
    FilterPick(k, l, h => BenchOf(h) == BenchOf(one), one);
    MeanPair(one, one, h => GroupValue(facts, h));
  }

  lemma TwoInCategory(facts: seq<Fact>, registry: Registry, id: string, b: BenchKey, c: BenchKey)
    requires OwnBenches(OwnFacts(facts, id), registry) == [b, c] && b.canonicalId == c.canonicalId == id
    requires CategoryOf(registry, b) == CategoryOf(registry, c)
    ensures CategoryScore(facts, registry, CategoryOf(registry, b))
         == Score((BenchValue(facts, b) + BenchValue(facts, c)) / 2.0, 2)
  {
    var cat := CategoryOf(registry, b);
    assert InCategory(facts, registry, cat) == [b, c] by {
      OwnInCategory(facts, registry, cat);
      FilterPair(b, c, k => CategoryOf(registry, k) == cat);
      assert [b] + [c] == [b, c];
    }
    MeanPair(b, c, k => BenchValue(facts, k));
  }

  lemma TwoBenches(facts: seq<Fact>, registry: Registry, id: string, b: BenchKey, c: BenchKey)
    requires OwnBenches(OwnFacts(facts, id), registry) == [b, c] && b.canonicalId == c.canonicalId == id
    requires CategoryOf(registry, b) == CategoryOf(registry, c)
    ensures id in Models(facts, registry) && CategoriesOf(facts, registry, id) == [CategoryOf(registry, b)]
    ensures CategoryScore(facts, registry, CategoryOf(registry, b))
         == Score((BenchValue(facts, b) + BenchValue(facts, c)) / 2.0, 2)
    ensures General(facts, registry, id) == Score((BenchValue(facts, b) + BenchValue(facts, c)) / 2.0, 1)
  {
    var cat := CategoryOf(registry, b);
    OwnCategories(facts, registry, id);
    KeysPair(b, c, k => CategoryOf(registry, k));
    TwoInCategory(facts, registry, id, b, c);
    MeanPair(cat, cat, k => CategoryScore(facts, registry, k).score);
    ScoredModel(facts, registry, id);
  }

  lemma TwoCategories(facts: seq<Fact>, registry: Registry, id: string, b: BenchKey, c: BenchKey)
    requires OwnBenches(OwnFacts(facts, id), registry) == [b, c] && b.canonicalId == c.canonicalId == id
    requires CategoryOf(registry, b) != CategoryOf(registry, c)
    ensures id in Models(facts, registry)
    ensures CategoriesOf(facts, registry, id) == [CategoryOf(registry, b), CategoryOf(registry, c)]
    ensures CategoryScore(facts, registry, CategoryOf(registry, b)) == Score(BenchValue(facts, b), 1)
    ensures CategoryScore(facts, registry, CategoryOf(registry, c)) == Score(BenchValue(facts, c), 1)
    ensures General(facts, registry, id) == Score((BenchValue(facts, b) + BenchValue(facts, c)) / 2.0, 2)
  {
    OwnCategories(facts, registry, id);
    KeysPair(b, c, k => CategoryOf(registry, k));
    InOneCategory(facts, registry, id, b, c, b);
    InOneCategory(facts, registry, id, b, c, c);
    MeanPair(CategoryOf(registry, b), CategoryOf(registry, c), k => CategoryScore(facts, registry, k).score);
    ScoredModel(facts, registry, id);
  }

  lemma InOneCategory(facts: seq<Fact>, registry: Registry, id: string, b: BenchKey, c: BenchKey, d: BenchKey)
    requires OwnBenches(OwnFacts(facts, id), registry) == [b, c] && b.canonicalId == c.canonicalId == id
    requires CategoryOf(registry, b) != CategoryOf(registry, c) && (d == b || d == c)
    ensures CategoryScore(facts, registry, CategoryOf(registry, d)) == Score(BenchValue(facts, d), 1)
  {
    OwnInCategory(facts, registry, CategoryOf(registry, d));
    FilterPick(b, c, k => CategoryOf(registry, k) == CategoryOf(registry, d), d);
    MeanPair(d, d, k => BenchValue(facts, k));
  }

  /** A fraction as a default run, and nothing to be cut off. */
  predicate PlainFraction(f: Fact) {
    f.unit == "fraction" && 0.0 <= f.value <= 1.0 && f.version == ""
  }

  lemma NamedScore(facts: seq<Fact>, registry: Registry, id: string, c: CategoryKey)
    requires id in Models(facts, registry) && c in CategoriesOf(facts, registry, id) && c.canonicalId == id
    ensures "general" in ScoresOf(facts, registry, id)
    ensures ScoresOf(facts, registry, id)["general"] == General(facts, registry, id)
    ensures c.category !in {"general", "code"} ==>
              c.category in ScoresOf(facts, registry, id)
              && ScoresOf(facts, registry, id)[c.category] == CategoryScore(facts, registry, c)
  {
    OwnScoresByName(facts, registry, id, c.category);
  }

  lemma TwoFactScores(facts: seq<Fact>, registry: Registry, f: Fact, g: Fact, c: CategoryKey, d: CategoryKey)
    requires OwnFacts(facts, f.canonicalId) == [f, g] && f.canonicalId == g.canonicalId
    requires f.benchmarkId in registry && g.benchmarkId in registry && PlainFraction(f) && PlainFraction(g)
    requires c == CategoryOf(registry, BenchOf(GroupOf(f))) && d == CategoryOf(registry, BenchOf(GroupOf(g)))
    ensures f.canonicalId in Models(facts, registry)
    ensures c in CategoriesOf(facts, registry, f.canonicalId) && d in CategoriesOf(facts, registry, f.canonicalId)
    ensures General(facts, registry, f.canonicalId) == Score((f.value + g.value) / 2.0, if c == d then 1 else 2)
    ensures c == d ==>
              CategoryScore(facts, registry, c) ==
              Score((f.value + g.value) / 2.0, if f.benchmarkId == g.benchmarkId then 1 else 2)
    ensures c != d ==> CategoryScore(facts, registry, c) == Score(f.value, 1)
    ensures c != d ==> CategoryScore(facts, registry, d) == Score(g.value, 1)
  {
    var id := f.canonicalId;
    var b, e := BenchOf(GroupOf(f)), BenchOf(GroupOf(g));
    if GroupOf(f) == GroupOf(g) {
      KeysPair(f, g, GroupOf);
      TwoRuns(facts, f, g);
      OneGroup(facts, registry, id, GroupOf(f));
    } else if b == e {
      TwoSources(facts, registry, f, g);
      OneBench(facts, registry, id, b);
    } else {
      TwoBenchValues(facts, registry, f, g);
      if c == d {
        TwoBenches(facts, registry, id, b, e);
      } else {
        TwoCategories(facts, registry, id, b, e);
      }
    }
  }

  /**
   * Two default runs average within a source, two sources within a benchmark, two benchmarks within a category and
   * two categories into the general score, each counted for what it is.
   */
  lemma TwoFactsAverage(facts: seq<Fact>, registry: Registry, includeAll: bool, f: Fact, g: Fact)
    requires OfModel(facts, f.canonicalId) == [f, g] && f.canonicalId == g.canonicalId
    requires PlainFraction(f) && PlainFraction(g) && Counts(f, registry, includeAll) && Counts(g, registry, includeAll)
    ensures f.canonicalId in Aggregated(facts, registry, includeAll)
    ensures var m := Aggregated(facts, registry, includeAll)[f.canonicalId];
            var half := (f.value + g.value) / 2.0;
            var first, second := registry[f.benchmarkId], registry[g.benchmarkId];
            "general" in m && m["general"] == Score(half, if first == second then 1 else 2)
            && (first !in {"general", "code"} ==>
                  first in m
                  && m[first] == if first != second then Score(f.value, 1)
                                 else Score(half, if f.benchmarkId == g.benchmarkId then 1 else 2))
            && (second !in {"general", "code"} && first != second ==> second in m && m[second] == Score(g.value, 1))
  {
    var kept, id := KeptFacts(facts, includeAll), f.canonicalId;
    var c, d := CategoryOf(registry, BenchOf(GroupOf(f))), CategoryOf(registry, BenchOf(GroupOf(g)));
    OwnAll(facts, registry, includeAll, id);
    TwoFactScores(kept, registry, f, g, c, d);
    NamedScore(kept, registry, id, c);
    NamedScore(kept, registry, id, d);
  }

  lemma MedianOfThree(x: real, y: real, z: real)
    requires x <= y <= z
    ensures Median([x, y, z]) == y
  {
    assert [z][1..] == [] && [y, z][1..] == [z] && [x, y, z][1..] == [y, z];
    assert [y] + [z] == [y, z] && [x] + [y, z] == [x, y, z];
    assert Sort([z]) == [z];
    assert Sort([y, z]) == [y, z];
    assert Sort([x, y, z]) == [x, y, z];
  }

  lemma MapThree<T>(x: T, y: T, z: T, f: T -> real)
    ensures Map([x, y, z], f) == [f(x), f(y), f(z)]
  {
    MapPair(x, y, f);
    assert [x, y, z][..2] == [x, y];
  }

  predicate Tier(f: Fact) {
    f.unit == "fraction" && f.version != ""
  }

  /** Without a default run, a model known by three tiers of one benchmark scores the middle one. */
  lemma TiersScoreTheMedian(facts: seq<Fact>, registry: Registry, includeAll: bool, f: Fact, g: Fact, h: Fact)
    requires OfModel(facts, f.canonicalId) == [f, g, h] && GroupOf(f) == GroupOf(g) == GroupOf(h)
    requires Tier(f) && Tier(g) && Tier(h) && f.benchmarkId in registry
    requires includeAll || (f.redistributable && g.redistributable && h.redistributable)
    requires 0.0 <= f.value <= g.value <= h.value <= 1.0
    ensures f.canonicalId in Aggregated(facts, registry, includeAll)
    ensures Only(Aggregated(facts, registry, includeAll)[f.canonicalId], registry[f.benchmarkId], g.value)
  {
    var kept, id, k := KeptFacts(facts, includeAll), f.canonicalId, GroupOf(f);
    OwnAll(facts, registry, includeAll, id);
    OneGroupMembers(kept, k);
    NoDefaults(kept, k);
    MapThree(f, g, h, x => ValueOf(kept, x));
    MedianOfThree(f.value, g.value, h.value);
    KeysPair(f, g, GroupOf);
    KeysOneMore([f, g], h, GroupOf);
    assert [f, g] + [h] == [f, g, h];
    OneGroup(kept, registry, id, k);
    OnlyOwn(kept, registry, id, CategoryOf(registry, BenchOf(k)));
    OnlyLegacy(registry[f.benchmarkId], g.value);
  }

  lemma NoDefaults(facts: seq<Fact>, k: GroupKey)
    requires forall f :: f in Members(facts, k) ==> f.version != ""
    ensures Defaults(facts, k) == []
  {
    if Defaults(facts, k) != [] {
      FilterElements(Members(facts, k), (f: Fact) => f.version == "", Defaults(facts, k)[0]);
    }
  }

  // ----- Facts that change nothing -----

  /** A rating more is all that could move the value of another fact. */
  lemma ValuesStay(facts: seq<Fact>, g: Fact, f: Fact)
    requires !IsRating(g) || f.benchmarkId != g.benchmarkId
    ensures Normalised(facts + [g], f) == Normalised(facts, f)
  {
    FilterOneMore(facts, g, h => Rates(h, f.benchmarkId, f.source));
  }

  predicate Known(f: Fact) {
    f.unit == "fraction" || f.unit == "pct" || f.unit == "index" || IsRating(f)
  }

  lemma ScoredOneMore(facts: seq<Fact>, g: Fact)
    ensures Scored(facts + [g]) == if Known(g) then Scored(facts) + [g] else Scored(facts)
  {
    FilterOneMore(facts, g, f => Normalised(facts + [g], f).Some?);
    FilterAgrees(facts, f => Normalised(facts + [g], f).Some?, f => Normalised(facts, f).Some?);
  }

  lemma SameGroupValue(a: seq<Fact>, b: seq<Fact>, k: GroupKey)
    requires Defaults(a, k) == Defaults(b, k) && (Defaults(a, k) == [] ==> Members(a, k) == Members(b, k))
    requires forall f :: GroupOf(f) == k ==> ValueOf(a, f) == ValueOf(b, f)
    ensures GroupValue(a, k) == GroupValue(b, k)
  {
    var inA, inB := (f: Fact) => ValueOf(a, f), (f: Fact) => ValueOf(b, f);
    forall f | f in Members(a, k) ensures GroupOf(f) == k {
      FilterElements(Scored(a), f => GroupOf(f) == k, f);
    }
    forall f | f in Defaults(a, k) ensures f in Members(a, k) {
      FilterElements(Members(a, k), (f: Fact) => f.version == "", f);
    }
    MeanIgnoresOrder(Defaults(a, k), Defaults(b, k), inA, inB);
    if Defaults(a, k) == [] {
      MapIgnoresOrder(Members(a, k), Members(b, k), inA, inB);
      MedianIgnoresOrder(Map(Members(a, k), inA), Map(Members(b, k), inB));
    }
  }

  /** Another fact leaves the value of a group alone when it is neither in it nor a rating of its benchmark. */
  lemma GroupValueStays(facts: seq<Fact>, g: Fact, k: GroupKey)
    requires !Known(g) || GroupOf(g) != k
    requires !IsRating(g) || g.benchmarkId != k.benchmarkId
    ensures GroupValue(facts + [g], k) == GroupValue(facts, k)
  {
    ScoredOneMore(facts, g);
    FilterOneMore(Scored(facts), g, f => GroupOf(f) == k);
    forall f | GroupOf(f) == k ensures ValueOf(facts + [g], f) == ValueOf(facts, f) {
      ValuesStay(facts, g, f);
    }
    SameGroupValue(facts + [g], facts, k);
  }

  lemma GroupsOneMore(facts: seq<Fact>, g: Fact)
    ensures Groups(facts + [g]) ==
            if !Known(g) || GroupOf(g) in Groups(facts) then Groups(facts) else Groups(facts) + [GroupOf(g)]
  {
    ScoredOneMore(facts, g);
    KeysOneMore(Scored(facts), g, GroupOf);
  }

  lemma SameBenchValue(a: seq<Fact>, b: seq<Fact>, bench: BenchKey)
    requires Sources(a, bench) == Sources(b, bench)
    requires forall k :: BenchOf(k) == bench ==> GroupValue(a, k) == GroupValue(b, k)
    ensures BenchValue(a, bench) == BenchValue(b, bench)
  {
    forall k | k in Sources(a, bench) ensures BenchOf(k) == bench {
      FilterElements(Groups(a), k => BenchOf(k) == bench, k);
    }
    MeanIgnoresOrder(Sources(a, bench), Sources(b, bench), k => GroupValue(a, k), k => GroupValue(b, k));
  }

  lemma SameGroups(a: seq<Fact>, b: seq<Fact>, registry: Registry)
    requires Groups(a) == Groups(b) && forall k :: GroupValue(a, k) == GroupValue(b, k)
    ensures SameEvidence(a, b, registry)
  {
    forall bench ensures BenchValue(a, bench) == BenchValue(b, bench) {
      SameBenchValue(a, b, bench);
    }
  }

  lemma UncataloguedAddsNothing(facts: seq<Fact>, g: Fact, registry: Registry)
    requires g.benchmarkId !in registry
    ensures SameEvidence(facts + [g], facts, registry)
  {
    var b := BenchOf(GroupOf(g));
    GroupsOneMore(facts, g);
    KeysOneMore(Groups(facts), GroupOf(g), BenchOf);
    FilterOneMore(Benches(facts), b, (k: BenchKey) => k.benchmarkId in registry);
    forall bench | bench in Catalogued(facts, registry)
      ensures BenchValue(facts + [g], bench) == BenchValue(facts, bench)
    {
      FilterElements(Benches(facts), (k: BenchKey) => k.benchmarkId in registry, bench);
      FilterOneMore(Groups(facts), GroupOf(g), k => BenchOf(k) == bench);
      forall k | BenchOf(k) == bench ensures GroupValue(facts + [g], k) == GroupValue(facts, k) {
        GroupValueStays(facts, g, k);
      }
      SameBenchValue(facts + [g], facts, bench);
    }
  }

  lemma UnknownAddsNothing(facts: seq<Fact>, g: Fact, registry: Registry)
    requires !Known(g)
    ensures SameEvidence(facts + [g], facts, registry)
  {
    GroupsOneMore(facts, g);
    forall k ensures GroupValue(facts + [g], k) == GroupValue(facts, k) {
      GroupValueStays(facts, g, k);
    }
    SameGroups(facts + [g], facts, registry);
  }

  /**
   * An operational or unknown unit, an uncatalogued benchmark, or a fact that is not redistributable where only those
   * are asked for: such a fact changes no score.
   */
  lemma SkippedFactChangesNothing(facts: seq<Fact>, registry: Registry, includeAll: bool, g: Fact)
    requires !Counts(g, registry, includeAll)
    ensures Aggregated(facts + [g], registry, includeAll) == Aggregated(facts, registry, includeAll)
  {
    var kept := KeptFacts(facts, includeAll);
    FilterOneMore(facts, g, f => Kept(f, includeAll));
    if Kept(g, includeAll) {
      if g.benchmarkId !in registry {
        UncataloguedAddsNothing(kept, g, registry);
      } else {
        UnknownAddsNothing(kept, g, registry);
      }
      SameScores(kept + [g], kept, registry);
    }
  }

  lemma TierAddsNothing(facts: seq<Fact>, d: Fact, g: Fact, registry: Registry)
    requires d in facts && Known(d) && d.version == "" && GroupOf(d) == GroupOf(g) && g.version != "" && !IsRating(g)
    ensures SameEvidence(facts + [g], facts, registry)
  {
    var k := GroupOf(g);
    ScoredOneMore(facts, g);
    FilterElements(facts, f => Normalised(facts, f).Some?, d);
    FilterElements(Scored(facts), f => GroupOf(f) == k, d);
    FilterElements(Members(facts, k), (f: Fact) => f.version == "", d);
    KeysAreThose(Scored(facts), GroupOf, k);
    GroupsOneMore(facts, g);
    FilterOneMore(Scored(facts), g, f => GroupOf(f) == k);
    FilterOneMore(Members(facts, k), g, (f: Fact) => f.version == "");
    forall f ensures ValueOf(facts + [g], f) == ValueOf(facts, f) {
      ValuesStay(facts, g, f);
    }
    SameGroupValue(facts + [g], facts, k);
    forall l ensures GroupValue(facts + [g], l) == GroupValue(facts, l) {
      if l != k {
        GroupValueStays(facts, g, l);
      }
    }
    SameGroups(facts + [g], facts, registry);
  }

  /** While a default run is there, a tiered fraction, percentage or index of the same model, benchmark and source is ignored. */
  lemma DefaultRunHidesTiers(facts: seq<Fact>, registry: Registry, includeAll: bool, d: Fact, g: Fact)
    requires d in facts && Counts(d, registry, includeAll) && d.version == ""
    requires g.unit in {"fraction", "pct", "index"} && g.version != ""
    requires d.canonicalId == g.canonicalId && d.benchmarkId == g.benchmarkId && d.source == g.source
    ensures Aggregated(facts + [g], registry, includeAll) == Aggregated(facts, registry, includeAll)
  {
    var kept := KeptFacts(facts, includeAll);
    FilterOneMore(facts, g, f => Kept(f, includeAll));
    if Kept(g, includeAll) {
      FilterElements(facts, f => Kept(f, includeAll), d);
      TierAddsNothing(kept, d, g, registry);
      SameScores(kept + [g], kept, registry);
    }
  }
}
