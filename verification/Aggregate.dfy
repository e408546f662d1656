/** Benchmark facts folded into one score per model and category: always a fraction, whatever the order. */
module Aggregate {
  import opened Common
  import opened Lists
  import opened Percentile

  datatype Fact = Fact(
    canonicalId: string, benchmarkId: string, source: string, version: string, unit: string, value: real,
    redistributable: bool)

  /** The category of each catalogued benchmark. */
  type Registry = map<string, string>

  const OPERATIONAL: set<string> := {"tok_s", "ms", "usd_per_mtok"}

  predicate Kept(f: Fact, includeAll: bool) {
    f.unit !in OPERATIONAL && (includeAll || f.redistributable)
  }

  function KeptFacts(facts: seq<Fact>, includeAll: bool): seq<Fact> {
    Filter(facts, f => Kept(f, includeAll))
  }

  // ----- From facts to comparable values -----

  predicate IsRating(f: Fact) {
    f.unit == "elo" || f.unit == "arena"
  }

  predicate Rates(f: Fact, benchmarkId: string, source: string) {
    IsRating(f) && f.benchmarkId == benchmarkId && f.source == source
  }

  /** The ratings of one benchmark by one source. */
  ghost function Cohort(facts: seq<Fact>, benchmarkId: string, source: string): seq<real> {
    Map(Filter(facts, f => Rates(f, benchmarkId, source)), (f: Fact) => f.value)
  }

  function Clamp01(x: real): real {
    if x < 0.0 then 0.0 else if x > 1.0 then 1.0 else x
  }

  /** A fraction of one, or nothing for a unit nobody knows. */
  ghost function Normalised(facts: seq<Fact>, f: Fact): Option<real> {
    if f.unit == "fraction" then Some(Clamp01(f.value))
    else if f.unit == "pct" || f.unit == "index" then Some(Clamp01(f.value / 100.0))
    else if IsRating(f) then Some(Rank(f.value, Cohort(facts, f.benchmarkId, f.source)))
    else None
  }

  ghost function ValueOf(facts: seq<Fact>, f: Fact): real {
    if Normalised(facts, f).Some? then Normalised(facts, f).value else 0.0
  }

  ghost function Scored(facts: seq<Fact>): seq<Fact> {
    Filter(facts, f => Normalised(facts, f).Some?)
  }

  // ----- The dictionaries, one after the other -----

  datatype GroupKey = GroupKey(canonicalId: string, benchmarkId: string, source: string)

  datatype BenchKey = BenchKey(canonicalId: string, benchmarkId: string)

  datatype CategoryKey = CategoryKey(canonicalId: string, category: string)

  function GroupOf(f: Fact): GroupKey {
    GroupKey(f.canonicalId, f.benchmarkId, f.source)
  }

  function BenchOf(k: GroupKey): BenchKey {
    BenchKey(k.canonicalId, k.benchmarkId)
  }

  ghost function Groups(facts: seq<Fact>): seq<GroupKey> {
    Keys(Scored(facts), GroupOf)
  }

  ghost function Members(facts: seq<Fact>, k: GroupKey): seq<Fact> {
    Filter(Scored(facts), f => GroupOf(f) == k)
  }

  ghost function Defaults(facts: seq<Fact>, k: GroupKey): seq<Fact> {
    Filter(Members(facts, k), (f: Fact) => f.version == "")
  }

  /** The mean of the default runs, or the median over the tiers when there is none. */
  ghost function GroupValue(facts: seq<Fact>, k: GroupKey): real {
    if Defaults(facts, k) != [] then Mean(Defaults(facts, k), f => ValueOf(facts, f))
    else Median(Map(Members(facts, k), f => ValueOf(facts, f)))
  }

  ghost function Benches(facts: seq<Fact>): seq<BenchKey> {
    Keys(Groups(facts), BenchOf)
  }

  ghost function Sources(facts: seq<Fact>, b: BenchKey): seq<GroupKey> {
    Filter(Groups(facts), k => BenchOf(k) == b)
  }

  ghost function BenchValue(facts: seq<Fact>, b: BenchKey): real {
    Mean(Sources(facts, b), k => GroupValue(facts, k))
  }

  ghost function Catalogued(facts: seq<Fact>, registry: Registry): seq<BenchKey> {
    Filter(Benches(facts), (b: BenchKey) => b.benchmarkId in registry)
  }

  function CategoryOf(registry: Registry, b: BenchKey): CategoryKey {
    CategoryKey(b.canonicalId, if b.benchmarkId in registry then registry[b.benchmarkId] else "")
  }

  ghost function Categories(facts: seq<Fact>, registry: Registry): seq<CategoryKey> {
    Keys(Catalogued(facts, registry), b => CategoryOf(registry, b))
  }

  datatype Score = Score(score: real, n: nat)

  ghost function InCategory(facts: seq<Fact>, registry: Registry, c: CategoryKey): seq<BenchKey> {
    Filter(Catalogued(facts, registry), b => CategoryOf(registry, b) == c)
  }

  ghost function CategoryScore(facts: seq<Fact>, registry: Registry, c: CategoryKey): Score {
    Score(Mean(InCategory(facts, registry, c), b => BenchValue(facts, b)), |InCategory(facts, registry, c)|)
  }

  ghost function CategoriesOf(facts: seq<Fact>, registry: Registry, id: string): seq<CategoryKey> {
    Filter(Categories(facts, registry), (c: CategoryKey) => c.canonicalId == id)
  }

  /** The mean of the real categories of a model, before the legacy keys are added. */
  ghost function General(facts: seq<Fact>, registry: Registry, id: string): Score {
    Score(Mean(CategoriesOf(facts, registry, id), c => CategoryScore(facts, registry, c).score),
          |CategoriesOf(facts, registry, id)|)
  }

  ghost function CategoryNames(facts: seq<Fact>, registry: Registry, id: string): set<string> {
    set c | c in CategoriesOf(facts, registry, id) :: c.category
  }

  ghost function OwnScores(facts: seq<Fact>, registry: Registry, id: string): map<string, Score> {
    map name | name in CategoryNames(facts, registry, id) :: CategoryScore(facts, registry, CategoryKey(id, name))
  }

  function WithLegacy(own: map<string, Score>, general: Score): map<string, Score> {
    (if "coding" in own then own["code" := own["coding"]] else own)["general" := general]
  }

  ghost function ScoresOf(facts: seq<Fact>, registry: Registry, id: string): map<string, Score> {
    WithLegacy(OwnScores(facts, registry, id), General(facts, registry, id))
  }

  ghost function Models(facts: seq<Fact>, registry: Registry): set<string> {
    set c | c in Categories(facts, registry) :: c.canonicalId
  }

  ghost function ScoresOfModels(facts: seq<Fact>, registry: Registry): map<string, map<string, Score>> {
    map id | id in Models(facts, registry) :: ScoresOf(facts, registry, id)
  }

  /** `aggregate`. */
  ghost function Aggregated(facts: seq<Fact>, registry: Registry, includeAll: bool): map<string, map<string, Score>> {
    ScoresOfModels(KeptFacts(facts, includeAll), registry)
  }

  // ----- The order of the facts does not matter -----

  lemma CohortIgnoresOrder(a: seq<Fact>, b: seq<Fact>, benchmarkId: string, source: string)
    requires Shuffled(a, b)
    ensures Shuffled(Cohort(a, benchmarkId, source), Cohort(b, benchmarkId, source))
  {
    var rates := (f: Fact) => Rates(f, benchmarkId, source);
    FilterIgnoresOrder(a, b, rates);
    MapIgnoresOrder(Filter(a, rates), Filter(b, rates), (f: Fact) => f.value, (f: Fact) => f.value);
  }

  lemma ValuesIgnoreOrder(a: seq<Fact>, b: seq<Fact>, f: Fact)
    requires Shuffled(a, b)
    ensures Normalised(a, f) == Normalised(b, f) && ValueOf(a, f) == ValueOf(b, f)
  {
    CohortIgnoresOrder(a, b, f.benchmarkId, f.source);
    RankIgnoresOrder(f.value, Cohort(a, f.benchmarkId, f.source), Cohort(b, f.benchmarkId, f.source));
  }

  lemma ScoredIgnoresOrder(a: seq<Fact>, b: seq<Fact>)
    requires Shuffled(a, b)
    ensures Shuffled(Scored(a), Scored(b))
  {
    var inA, inB := (f: Fact) => Normalised(a, f).Some?, (f: Fact) => Normalised(b, f).Some?;
    FilterIgnoresOrder(a, b, inA);
    forall f | f in b ensures inA(f) == inB(f) {
      ValuesIgnoreOrder(a, b, f);
    }
    FilterAgrees(b, inA, inB);
  }

  lemma GroupsIgnoreOrder(a: seq<Fact>, b: seq<Fact>)
    requires Shuffled(a, b)
    ensures Shuffled(Groups(a), Groups(b)) && Shuffled(Benches(a), Benches(b))
  {
    ScoredIgnoresOrder(a, b);
    KeysIgnoreOrder(Scored(a), Scored(b), GroupOf);
    KeysIgnoreOrder(Groups(a), Groups(b), BenchOf);
  }

  lemma MembersIgnoreOrder(a: seq<Fact>, b: seq<Fact>, k: GroupKey)
    requires Shuffled(a, b)
    ensures Shuffled(Members(a, k), Members(b, k)) && Shuffled(Defaults(a, k), Defaults(b, k))
  {
    ScoredIgnoresOrder(a, b);
    FilterIgnoresOrder(Scored(a), Scored(b), f => GroupOf(f) == k);
    FilterIgnoresOrder(Members(a, k), Members(b, k), (f: Fact) => f.version == "");
  }

  lemma GroupValueIgnoresOrder(a: seq<Fact>, b: seq<Fact>, k: GroupKey)
    requires Shuffled(a, b)
    ensures GroupValue(a, k) == GroupValue(b, k)
  {
    var inA, inB := (f: Fact) => ValueOf(a, f), (f: Fact) => ValueOf(b, f);
    MembersIgnoreOrder(a, b, k);
    ShuffledSize(Defaults(a, k), Defaults(b, k));
    forall f ensures inA(f) == inB(f) {
      ValuesIgnoreOrder(a, b, f);
    }
    MeanIgnoresOrder(Defaults(a, k), Defaults(b, k), inA, inB);
    MapIgnoresOrder(Members(a, k), Members(b, k), inA, inB);
    MedianIgnoresOrder(Map(Members(a, k), inA), Map(Members(b, k), inB));
  }

  lemma BenchValueIgnoresOrder(a: seq<Fact>, b: seq<Fact>, bench: BenchKey)
    requires Shuffled(a, b)
    ensures BenchValue(a, bench) == BenchValue(b, bench)
  {
    GroupsIgnoreOrder(a, b);
    FilterIgnoresOrder(Groups(a), Groups(b), k => BenchOf(k) == bench);
    forall k ensures GroupValue(a, k) == GroupValue(b, k) {
      GroupValueIgnoresOrder(a, b, k);
    }
    MeanIgnoresOrder(Sources(a, bench), Sources(b, bench), k => GroupValue(a, k), k => GroupValue(b, k));
  }

  // ----- All that the scores rest on -----

  /** The same catalogued benchmarks, each with the same value. */
  ghost predicate SameEvidence(a: seq<Fact>, b: seq<Fact>, registry: Registry) {
    Shuffled(Catalogued(a, registry), Catalogued(b, registry))
    && forall k :: k in Catalogued(a, registry) ==> BenchValue(a, k) == BenchValue(b, k)
  }

  lemma ShuffledEvidence(a: seq<Fact>, b: seq<Fact>, registry: Registry)
    requires Shuffled(a, b)
    ensures SameEvidence(a, b, registry)
  {
    GroupsIgnoreOrder(a, b);
    FilterIgnoresOrder(Benches(a), Benches(b), (k: BenchKey) => k.benchmarkId in registry);
    forall k ensures BenchValue(a, k) == BenchValue(b, k) {
      BenchValueIgnoresOrder(a, b, k);
    }
  }

  lemma SameCategoryScore(a: seq<Fact>, b: seq<Fact>, registry: Registry, c: CategoryKey)
    requires SameEvidence(a, b, registry)
    ensures CategoryScore(a, registry, c) == CategoryScore(b, registry, c)
  {
    FilterIgnoresOrder(Catalogued(a, registry), Catalogued(b, registry), k => CategoryOf(registry, k) == c);
    forall k | k in InCategory(a, registry, c) ensures BenchValue(a, k) == BenchValue(b, k) {
      FilterElements(Catalogued(a, registry), k => CategoryOf(registry, k) == c, k);
    }
    MeanIgnoresOrder(InCategory(a, registry, c), InCategory(b, registry, c), k => BenchValue(a, k), k => BenchValue(b, k));
    ShuffledSize(InCategory(a, registry, c), InCategory(b, registry, c));
  }

  lemma SameCategories(a: seq<Fact>, b: seq<Fact>, registry: Registry, id: string)
    requires SameEvidence(a, b, registry)
    ensures Shuffled(Categories(a, registry), Categories(b, registry))
    ensures Shuffled(CategoriesOf(a, registry, id), CategoriesOf(b, registry, id))
  {
    KeysIgnoreOrder(Catalogued(a, registry), Catalogued(b, registry), k => CategoryOf(registry, k));
    FilterIgnoresOrder(Categories(a, registry), Categories(b, registry), (c: CategoryKey) => c.canonicalId == id);
  }

  lemma SameGeneral(a: seq<Fact>, b: seq<Fact>, registry: Registry, id: string)
    requires SameEvidence(a, b, registry)
    ensures General(a, registry, id) == General(b, registry, id)
  {
    SameCategories(a, b, registry, id);
    ShuffledSize(CategoriesOf(a, registry, id), CategoriesOf(b, registry, id));
    forall c ensures CategoryScore(a, registry, c).score == CategoryScore(b, registry, c).score {
      SameCategoryScore(a, b, registry, c);
    }
    MeanIgnoresOrder(CategoriesOf(a, registry, id), CategoriesOf(b, registry, id),
                     c => CategoryScore(a, registry, c).score, c => CategoryScore(b, registry, c).score);
  }

  lemma SameNames(a: seq<Fact>, b: seq<Fact>, registry: Registry, id: string)
    requires SameEvidence(a, b, registry)
    ensures CategoryNames(a, registry, id) == CategoryNames(b, registry, id)
    ensures id in Models(a, registry) <==> id in Models(b, registry)
  {
    SameCategories(a, b, registry, id);
    ShuffledSize(Categories(a, registry), Categories(b, registry));
    ShuffledSize(CategoriesOf(a, registry, id), CategoriesOf(b, registry, id));
  }

  lemma SameOwn(a: seq<Fact>, b: seq<Fact>, registry: Registry, id: string)
    requires SameEvidence(a, b, registry)
    ensures OwnScores(a, registry, id) == OwnScores(b, registry, id)
  {
    var m, n := OwnScores(a, registry, id), OwnScores(b, registry, id);
    SameNames(a, b, registry, id);
    forall name | name in m ensures m[name] == n[name] {
      SameCategoryScore(a, b, registry, CategoryKey(id, name));
    }
  }

  lemma SameScoresOf(a: seq<Fact>, b: seq<Fact>, registry: Registry, id: string)
    requires SameEvidence(a, b, registry)
    ensures ScoresOf(a, registry, id) == ScoresOf(b, registry, id)
  {
    SameOwn(a, b, registry, id);
    SameGeneral(a, b, registry, id);
  }

  /** The same evidence makes the same scores. */
  lemma SameScores(a: seq<Fact>, b: seq<Fact>, registry: Registry)
    requires SameEvidence(a, b, registry)
    ensures ScoresOfModels(a, registry) == ScoresOfModels(b, registry)
  {
    var m, n := ScoresOfModels(a, registry), ScoresOfModels(b, registry);
    forall id ensures id in m <==> id in n {
      SameNames(a, b, registry, id);
    }
    forall id | id in m ensures m[id] == n[id] {
      SameScoresOf(a, b, registry, id);
    }
  }

  /** The scores depend on which facts there are, not on the order they were read in. */
  lemma AggregationIgnoresOrder(a: seq<Fact>, b: seq<Fact>, registry: Registry, includeAll: bool)
    requires Shuffled(a, b)
    ensures Aggregated(a, registry, includeAll) == Aggregated(b, registry, includeAll)
  {
    FilterIgnoresOrder(a, b, f => Kept(f, includeAll));
    ShuffledEvidence(KeptFacts(a, includeAll), KeptFacts(b, includeAll), registry);
    SameScores(KeptFacts(a, includeAll), KeptFacts(b, includeAll), registry);
  }

  // ----- Every score is a fraction of one -----

  predicate IsFraction(x: real) {
    0.0 <= x <= 1.0
  }

  lemma ValueIsFraction(facts: seq<Fact>, f: Fact)
    ensures IsFraction(ValueOf(facts, f))
  {
    RankInRange(f.value, Cohort(facts, f.benchmarkId, f.source));
  }

  lemma GroupValueIsFraction(facts: seq<Fact>, k: GroupKey)
    ensures IsFraction(GroupValue(facts, k))
  {
    var value := (f: Fact) => ValueOf(facts, f);
    forall f ensures IsFraction(value(f)) {
      ValueIsFraction(facts, f);
    }
    MeanInRange(Defaults(facts, k), value);
    var values := Map(Members(facts, k), value);
    forall v | v in values ensures IsFraction(v) {
      MapElements(Members(facts, k), value, v);
    }
    MedianInRange(values);
  }

  lemma BenchValueIsFraction(facts: seq<Fact>, b: BenchKey)
    ensures IsFraction(BenchValue(facts, b))
  {
    forall k ensures IsFraction(GroupValue(facts, k)) {
      GroupValueIsFraction(facts, k);
    }
    MeanInRange(Sources(facts, b), k => GroupValue(facts, k));
  }

  lemma CategoryScoreIsFraction(facts: seq<Fact>, registry: Registry, c: CategoryKey)
    ensures IsFraction(CategoryScore(facts, registry, c).score)
  {
    forall b ensures IsFraction(BenchValue(facts, b)) {
      BenchValueIsFraction(facts, b);
    }
    MeanInRange(InCategory(facts, registry, c), b => BenchValue(facts, b));
  }

  lemma GeneralIsFraction(facts: seq<Fact>, registry: Registry, id: string)
    ensures IsFraction(General(facts, registry, id).score)
  {
    var score := (c: CategoryKey) => CategoryScore(facts, registry, c).score;
    forall c ensures IsFraction(score(c)) {
      CategoryScoreIsFraction(facts, registry, c);
    }
    MeanInRange(CategoriesOf(facts, registry, id), score);
  }

  lemma LegacyKeepsFractions(own: map<string, Score>, general: Score, category: string)
    requires IsFraction(general.score) && forall name :: name in own ==> IsFraction(own[name].score)
    requires category in WithLegacy(own, general)
    ensures IsFraction(WithLegacy(own, general)[category].score)
  {
  }

  /** Every emitted score, the legacy ones included, lies between nought and one. */
  lemma ScoresAreFractions(facts: seq<Fact>, registry: Registry, includeAll: bool, id: string, category: string)
    requires id in Aggregated(facts, registry, includeAll) && category in Aggregated(facts, registry, includeAll)[id]
    ensures IsFraction(Aggregated(facts, registry, includeAll)[id][category].score)
  {
    var kept := KeptFacts(facts, includeAll);
    var own, general := OwnScores(kept, registry, id), General(kept, registry, id);
    forall name | name in own ensures IsFraction(own[name].score) {
      CategoryScoreIsFraction(kept, registry, CategoryKey(id, name));
    }
    GeneralIsFraction(kept, registry, id);
    LegacyKeepsFractions(own, general, category);
  }

  /** A benchmark that is not catalogued, or a unit nobody knows, never makes up a category. */
  lemma CategoriesHaveEvidence(facts: seq<Fact>, registry: Registry, c: CategoryKey)
    requires c in Categories(facts, registry)
    ensures exists f :: f in Scored(facts) && f.canonicalId == c.canonicalId
              && f.benchmarkId in registry && registry[f.benchmarkId] == c.category
  {
    KeyHasMembers(Catalogued(facts, registry), b => CategoryOf(registry, b), c);
    var b :| b in Catalogued(facts, registry) && CategoryOf(registry, b) == c;
    FilterHolds(Benches(facts), (k: BenchKey) => k.benchmarkId in registry, b);
    KeyHasMembers(Groups(facts), BenchOf, b);
    var k :| k in Groups(facts) && BenchOf(k) == b;
    KeyHasMembers(Scored(facts), GroupOf, k);
  }

  lemma FilterHolds<T(!new)>(s: seq<T>, p: T -> bool, x: T)
    ensures x in Filter(s, p) <==> x in s && p(x)
  {
  }
}
