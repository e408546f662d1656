/** Lists that are read for what they hold, not for their order: filters, first occurrences, sums, medians. */
module Lists {
  import opened Common

  function Filter<T>(s: seq<T>, p: T -> bool): seq<T> {
    if s == [] then [] else Filter(s[..|s| - 1], p) + if p(s[|s| - 1]) then [s[|s| - 1]] else []
  }

  /** The keys of a dictionary filled in one pass: each once, in the order of first occurrence. */
  function Keys<T, K(==)>(s: seq<T>, key: T -> K): seq<K> {
    if s == [] then []
    else
      var before, last := Keys(s[..|s| - 1], key), key(s[|s| - 1]);
      if last in before then before else before + [last]
  }

  ghost function Sum<T>(s: seq<T>, f: T -> real): real {
    if s == [] then 0.0 else Sum(s[..|s| - 1], f) + f(s[|s| - 1])
  }

  ghost function Mean<T>(s: seq<T>, f: T -> real): real {
    if s == [] then 0.0 else Sum(s, f) / |s| as real
  }

  ghost function Map<T, U>(s: seq<T>, f: T -> U): seq<U> {
    if s == [] then [] else Map(s[..|s| - 1], f) + [f(s[|s| - 1])]
  }

  ghost predicate Shuffled<T>(a: seq<T>, b: seq<T>) {
    multiset(a) == multiset(b)
  }

  lemma ShuffledSize<T>(a: seq<T>, b: seq<T>)
    requires Shuffled(a, b)
    ensures |a| == |b| && forall x :: x in a <==> x in b
  {
    assert |multiset(a)| == |a| && |multiset(b)| == |b|;
    forall x ensures x in a <==> x in b {
      assert x in multiset(a) <==> x in multiset(b);
    }
  }

  lemma {:induction false} FilterCounts<T>(s: seq<T>, p: T -> bool, x: T)
    ensures multiset(Filter(s, p))[x] == if p(x) then multiset(s)[x] else 0
  {
    if s != [] {
      var front, last := s[..|s| - 1], s[|s| - 1];
      FilterCounts(front, p, x);
      assert s == front + [last];
    }
  }

  lemma FilterIgnoresOrder<T(!new)>(a: seq<T>, b: seq<T>, p: T -> bool)
    requires Shuffled(a, b)
    ensures Shuffled(Filter(a, p), Filter(b, p))
  {
    forall x ensures multiset(Filter(a, p))[x] == multiset(Filter(b, p))[x] {
      FilterCounts(a, p, x);
      FilterCounts(b, p, x);
    }
  }

  lemma {:induction false} FilterAgrees<T>(s: seq<T>, p: T -> bool, q: T -> bool)
    requires forall x :: x in s ==> p(x) == q(x)
    ensures Filter(s, p) == Filter(s, q)
  {
    if s != [] {
      FilterAgrees(s[..|s| - 1], p, q);
    }
  }

  lemma {:induction false} KeysAreThose<T, K>(s: seq<T>, key: T -> K, k: K)
    ensures multiset(Keys(s, key))[k] == if exists x :: x in s && key(x) == k then 1 else 0
  {
    if s != [] {
      var front, last := s[..|s| - 1], s[|s| - 1];
      KeysAreThose(front, key, k);
      KeysAreThose(front, key, key(last));
      assert s == front + [last];
      assert key(last) in Keys(front, key) <==> key(last) in multiset(Keys(front, key));
    }
  }

  lemma KeysIgnoreOrder<T, K(!new)>(a: seq<T>, b: seq<T>, key: T -> K)
    requires Shuffled(a, b)
    ensures Shuffled(Keys(a, key), Keys(b, key))
  {
    ShuffledSize(a, b);
    forall k ensures multiset(Keys(a, key))[k] == multiset(Keys(b, key))[k] {
      KeysAreThose(a, key, k);
      KeysAreThose(b, key, k);
    }
  }

  lemma {:induction false} SumWithout<T>(s: seq<T>, f: T -> real, i: nat)
    requires i < |s|
    ensures Sum(s, f) == Sum(s[..i] + s[i + 1..], f) + f(s[i])
    decreases |s|
  {
    var n := |s| - 1;
    var rest := s[..i] + s[i + 1..];
    if i < n {
      SumWithout(s[..n], f, i);
      assert s[..n][..i] + s[..n][i + 1..] == rest[..n - 1];
    } else {
      assert rest == s[..n];
    }
  }

  lemma RemoveOne<T>(s: seq<T>, x: T) returns (i: nat, rest: seq<T>)
    requires x in s
    ensures i < |s| && s[i] == x && rest == s[..i] + s[i + 1..] && multiset(rest) == multiset(s) - multiset{x}
  {
    i :| 0 <= i < |s| && s[i] == x;
    rest := s[..i] + s[i + 1..];
    assert s == s[..i] + [x] + s[i + 1..];
  }

  /** A sum does not depend on the order, nor on anything but the values of the elements summed. */
  lemma {:induction false} SumIgnoresOrder<T>(a: seq<T>, b: seq<T>, f: T -> real, g: T -> real)
    requires Shuffled(a, b) && forall x :: x in a ==> f(x) == g(x)
    ensures Sum(a, f) == Sum(b, g) && |a| == |b|
    decreases |a|
  {
    ShuffledSize(a, b);
    if a != [] {
      var n := |a| - 1;
      assert a == a[..n] + [a[n]];
      var i, rest := RemoveOne(b, a[n]);
      SumIgnoresOrder(a[..n], rest, f, g);
      SumWithout(b, g, i);
    }
  }

  lemma MeanIgnoresOrder<T>(a: seq<T>, b: seq<T>, f: T -> real, g: T -> real)
    requires Shuffled(a, b) && forall x :: x in a ==> f(x) == g(x)
    ensures Mean(a, f) == Mean(b, g)
  {
    SumIgnoresOrder(a, b, f, g);
  }

  ghost function Hit<T, U>(f: T -> U, u: U): T -> real {
    x => if f(x) == u then 1.0 else 0.0
  }

  /** How often `u` occurs among the images, as a sum over the originals. */
  lemma {:induction false} MapCounts<T, U>(s: seq<T>, f: T -> U, u: U)
    ensures multiset(Map(s, f))[u] as real == Sum(s, Hit(f, u))
  {
    if s != [] {
      MapCounts(s[..|s| - 1], f, u);
    }
  }

  lemma MapIgnoresOrder<T, U(!new)>(a: seq<T>, b: seq<T>, f: T -> U, g: T -> U)
    requires Shuffled(a, b) && forall x :: x in a ==> f(x) == g(x)
    ensures Shuffled(Map(a, f), Map(b, g))
  {
    forall u ensures multiset(Map(a, f))[u] == multiset(Map(b, g))[u] {
      MapCounts(a, f, u);
      MapCounts(b, g, u);
      SumIgnoresOrder(a, b, Hit(f, u), Hit(g, u));
    }
  }

  lemma {:induction false} MapElements<T, U>(s: seq<T>, f: T -> U, y: U)
    ensures y in Map(s, f) <==> exists x :: x in s && f(x) == y
  {
    if s != [] {
      MapElements(s[..|s| - 1], f, y);
      assert s == s[..|s| - 1] + [s[|s| - 1]];
    }
  }

  /** A key that was seen has something filed under it. */
  lemma KeyHasMembers<T, K(!new)>(s: seq<T>, key: T -> K, k: K)
    requires k in Keys(s, key)
    ensures exists x :: x in s && key(x) == k
  {
  }

  lemma {:induction false} SumInRange<T>(s: seq<T>, f: T -> real)
    requires forall x :: x in s ==> 0.0 <= f(x) <= 1.0
    ensures 0.0 <= Sum(s, f) <= |s| as real
  {
    if s != [] {
      SumInRange(s[..|s| - 1], f);
    }
  }

  lemma MeanInRange<T>(s: seq<T>, f: T -> real)
    requires forall x :: x in s ==> 0.0 <= f(x) <= 1.0
    ensures 0.0 <= Mean(s, f) <= 1.0
  {
    SumInRange(s, f);
    if s != [] {
      var n := |s| as real;
      SharesAdd(0.0, Sum(s, f), n);
      SharesAdd(Sum(s, f), n, n);
      assert 0.0 / n == 0.0 && n / n == 1.0;
    }
  }

  // ----- Filters and keys of parts -----

  lemma {:induction false} FilterElements<T>(s: seq<T>, p: T -> bool, x: T)
    ensures x in Filter(s, p) <==> x in s && p(x)
  {
    if s != [] {
      FilterElements(s[..|s| - 1], p, x);
      assert s == s[..|s| - 1] + [s[|s| - 1]];
    }
  }

  lemma {:induction false} FilterAll<T>(s: seq<T>, p: T -> bool)
    requires forall x :: x in s ==> p(x)
    ensures Filter(s, p) == s
  {
    if s != [] {
      FilterAll(s[..|s| - 1], p);
      assert s == s[..|s| - 1] + [s[|s| - 1]];
      FilterOneMore(s[..|s| - 1], s[|s| - 1], p);
    }
  }

  lemma {:induction false} FilterTwice<T(!new)>(s: seq<T>, p: T -> bool, q: T -> bool)
    requires forall x :: q(x) ==> p(x)
    ensures Filter(Filter(s, p), q) == Filter(s, q)
  {
    if s != [] {
      var front, last := s[..|s| - 1], s[|s| - 1];
      FilterTwice(front, p, q);
      assert s == front + [last];
      FilterOneMore(front, last, p);
      FilterOneMore(front, last, q);
      FilterOneMore(Filter(front, p), last, q);
    }
  }

  lemma FilterOneMore<T>(s: seq<T>, x: T, p: T -> bool)
    ensures Filter(s + [x], p) == if p(x) then Filter(s, p) + [x] else Filter(s, p)
  {
    assert (s + [x])[..|s + [x]| - 1] == s;
    assert Filter(s, p) + [] == Filter(s, p);
  }

  lemma {:induction false} FilterSwaps<T>(s: seq<T>, p: T -> bool, q: T -> bool)
    ensures Filter(Filter(s, p), q) == Filter(Filter(s, q), p)
  {
    if s != [] {
      var front, last := s[..|s| - 1], s[|s| - 1];
      FilterSwaps(front, p, q);
      assert s == front + [last];
      FilterOneMore(front, last, p);
      FilterOneMore(front, last, q);
      FilterOneMore(Filter(front, p), last, q);
      FilterOneMore(Filter(front, q), last, p);
    }
  }

  lemma KeysOneMore<T, K>(s: seq<T>, x: T, key: T -> K)
    ensures Keys(s + [x], key) == if key(x) in Keys(s, key) then Keys(s, key) else Keys(s, key) + [key(x)]
  {
    assert (s + [x])[..|s + [x]| - 1] == s;
  }

  /** The keys that satisfy `p` are those of the elements whose key does. */
  lemma {:induction false} FilterKeys<T, K>(s: seq<T>, key: T -> K, p: K -> bool, q: T -> bool)
    requires forall x :: x in s ==> q(x) == p(key(x))
    ensures Filter(Keys(s, key), p) == Keys(Filter(s, q), key)
  {
    if s != [] {
      var front, last := s[..|s| - 1], s[|s| - 1];
      var part := Filter(front, q);
      FilterKeys(front, key, p, q);
      assert s == front + [last];
      FilterOneMore(front, last, q);
      FilterOneMore(Keys(front, key), key(last), p);
      KeysOneMore(part, last, key);
      FilterElements(Keys(front, key), p, key(last));
    }
  }

  // ----- Medians -----

  function Insert(x: real, s: seq<real>): seq<real> {
    if s == [] || x <= s[0] then [x] + s else [s[0]] + Insert(x, s[1..])
  }

  function Sort(s: seq<real>): seq<real> {
    if s == [] then [] else Insert(s[0], Sort(s[1..]))
  }

  ghost predicate Bounds(x: real, s: seq<real>) {
    forall y :: y in s ==> x <= y
  }

  ghost predicate Ascends(s: seq<real>) {
    s == [] || (Bounds(s[0], s[1..]) && Ascends(s[1..]))
  }

  lemma {:induction false} InsertHolds(x: real, s: seq<real>)
    ensures multiset(Insert(x, s)) == multiset(s) + multiset{x}
  {
    if s != [] && x > s[0] {
      InsertHolds(x, s[1..]);
      assert s == [s[0]] + s[1..];
    }
  }

  lemma InsertElements(x: real, s: seq<real>, y: real)
    ensures y in Insert(x, s) <==> y == x || y in s
  {
  }

  lemma {:induction false} InsertAscends(x: real, s: seq<real>)
    requires Ascends(s)
    ensures Ascends(Insert(x, s))
  {
    if s == [] || x <= s[0] {
      assert ([x] + s)[1..] == s;
      assert s != [] ==> s == [s[0]] + s[1..];
    } else {
      InsertAscends(x, s[1..]);
      var rest := Insert(x, s[1..]);
      forall y | y in rest ensures s[0] <= y {
        InsertElements(x, s[1..], y);
      }
      assert ([s[0]] + rest)[1..] == rest;
    }
  }

  lemma {:induction false} SortSorts(s: seq<real>)
    ensures Ascends(Sort(s)) && Shuffled(Sort(s), s)
  {
    if s != [] {
      SortSorts(s[1..]);
      InsertAscends(s[0], Sort(s[1..]));
      InsertHolds(s[0], Sort(s[1..]));
      assert s == [s[0]] + s[1..];
    }
  }

  lemma FirstIsLeast(s: seq<real>, y: real)
    requires Ascends(s) && y in s
    ensures s[0] <= y
  {
    assert s == [s[0]] + s[1..];
  }

  lemma TailsShuffled(a: seq<real>, b: seq<real>)
    requires a != [] && b != [] && a[0] == b[0] && Shuffled(a, b)
    ensures Shuffled(a[1..], b[1..])
  {
    assert a == [a[0]] + a[1..] && b == [b[0]] + b[1..];
    assert multiset(a[1..]) == multiset(a) - multiset{a[0]};
    assert multiset(b[1..]) == multiset(b) - multiset{b[0]};
  }

  lemma SameFirst(a: seq<real>, b: seq<real>)
    requires Ascends(a) && Ascends(b) && Shuffled(a, b) && a != []
    ensures b != [] && a[0] == b[0]
  {
    ShuffledSize(a, b);
    FirstIsLeast(a, b[0]);
    FirstIsLeast(b, a[0]);
  }

  lemma {:induction false} OneAscent(a: seq<real>, b: seq<real>)
    requires Ascends(a) && Ascends(b) && Shuffled(a, b)
    ensures a == b
  {
    if a != [] {
      SameFirst(a, b);
      TailsShuffled(a, b);
      OneAscent(a[1..], b[1..]);
      assert a == [a[0]] + a[1..] && b == [b[0]] + b[1..];
    } else {
      ShuffledSize(a, b);
    }
  }

  lemma SameSort(a: seq<real>, b: seq<real>)
    requires Shuffled(a, b)
    ensures Sort(a) == Sort(b)
  {
    SortSorts(a);
    SortSorts(b);
    OneAscent(Sort(a), Sort(b));
  }

  function Median(s: seq<real>): real {
    var sorted := Sort(s);
    var n := |sorted|;
    if n == 0 then 0.0
    else if n % 2 == 1 then sorted[n / 2]
    else (sorted[n / 2 - 1] + sorted[n / 2]) / 2.0
  }

  lemma MedianIgnoresOrder(a: seq<real>, b: seq<real>)
    requires Shuffled(a, b)
    ensures Median(a) == Median(b)
  {
    SameSort(a, b);
  }

  lemma MedianInRange(s: seq<real>)
    requires forall x :: x in s ==> 0.0 <= x <= 1.0
    ensures 0.0 <= Median(s) <= 1.0
  {
    SortSorts(s);
    ShuffledSize(Sort(s), s);
    forall i | 0 <= i < |Sort(s)| ensures 0.0 <= Sort(s)[i] <= 1.0 {
      assert Sort(s)[i] in Sort(s);
    }
  }

  // ----- How many elements lie up to a bound -----

  ghost function UpTo(x: real): real -> real {
    y => if y <= x then 1.0 else 0.0
  }

  ghost function AtMost(x: real, s: seq<real>): real {
    Sum(s, UpTo(x))
  }

  lemma {:induction false} AtMostFits(x: real, s: seq<real>)
    ensures 0.0 <= AtMost(x, s) <= |s| as real
    ensures Bounds(x, s) && x !in s ==> AtMost(x, s) == 0.0
  {
    if s != [] {
      var front, last := s[..|s| - 1], s[|s| - 1];
      AtMostFits(x, front);
      assert s == front + [last];
      assert last in s && forall y :: y in front ==> y in s;
    }
  }

  lemma SortAtMost(x: real, s: seq<real>)
    ensures |Sort(s)| == |s| && AtMost(x, Sort(s)) == AtMost(x, s)
  {
    SortSorts(s);
    SumIgnoresOrder(Sort(s), s, UpTo(x), UpTo(x));
  }

  /** In ascending order, the element at `i` is up to `x` exactly when more than `i` elements are. */
  lemma {:induction false} AscendsAtMost(s: seq<real>, i: nat, x: real)
    requires Ascends(s) && i < |s|
    ensures s[i] <= x <==> AtMost(x, s) > i as real
  {
    var rest := s[1..];
    AtMostRest(x, s);
    AtMostFits(x, rest);
    if s[0] > x {
      FirstIsLeast(s, s[i]);
      NoneUpTo(s, x);
    } else if i > 0 {
      AscendsAtMost(rest, i - 1, x);
    }
  }

  lemma AtMostRest(x: real, s: seq<real>)
    requires s != []
    ensures AtMost(x, s) == AtMost(x, s[1..]) + if s[0] <= x then 1.0 else 0.0
  {
    var first: nat := 0;
    assert s[..first] + s[first + 1..] == s[1..];
    SumWithout(s, UpTo(x), first);
  }

  lemma NoneUpTo(s: seq<real>, x: real)
    requires s != [] && Ascends(s) && x < s[0]
    ensures AtMost(x, s) == 0.0
  {
    forall y | y in s ensures x < y {
      FirstIsLeast(s, y);
    }
    AtMostFits(x, s);
  }

  lemma MedianUpTo(s: seq<real>, x: real)
    requires s != [] && 2.0 * AtMost(x, s) > |s| as real
    ensures Median(s) <= x
  {
    SortSorts(s);
    SortAtMost(x, s);
    AscendsAtMost(Sort(s), |s| / 2, x);
    if |s| % 2 == 0 {
      AscendsAtMost(Sort(s), |s| / 2 - 1, x);
    }
  }

  lemma MedianAbove(s: seq<real>, x: real, n: nat)
    requires s != [] && Bounds(x, s) && AtMost(x, s) == n as real && 2 * n <= |s|
    ensures Median(s) > x
  {
    SortSorts(s);
    SortAtMost(x, s);
    ShuffledSize(Sort(s), s);
    AscendsAtMost(Sort(s), |s| / 2, x);
    if |s| % 2 == 0 {
      assert Sort(s)[|s| / 2 - 1] in Sort(s);
    }
  }

  ghost predicate Rises(s: seq<real>, t: seq<real>) {
    |s| == |t| && forall i :: 0 <= i < |s| ==> s[i] <= t[i]
  }

  lemma {:induction false} FewerUpTo(s: seq<real>, t: seq<real>, x: real)
    requires Rises(s, t)
    ensures AtMost(x, t) <= AtMost(x, s)
  {
    if s != [] {
      FewerUpTo(s[..|s| - 1], t[..|t| - 1], x);
    }
  }

  lemma SortRises(s: seq<real>, t: seq<real>, i: nat)
    requires Rises(s, t) && i < |s|
    ensures |Sort(s)| == |Sort(t)| == |s| && Sort(s)[i] <= Sort(t)[i]
  {
    SortSorts(s);
    SortSorts(t);
    SortAtMost(0.0, s);
    SortAtMost(0.0, t);
    var x := Sort(t)[i];
    SortAtMost(x, s);
    SortAtMost(x, t);
    FewerUpTo(s, t, x);
    AscendsAtMost(Sort(t), i, x);
    AscendsAtMost(Sort(s), i, x);
  }

  /** Raising elements never lowers the median. */
  lemma MedianRises(s: seq<real>, t: seq<real>)
    requires Rises(s, t)
    ensures Median(s) <= Median(t)
  {
    if s != [] {
      SortRises(s, t, |s| / 2);
      if |s| % 2 == 0 {
        SortRises(s, t, |s| / 2 - 1);
      }
    }
  }

  // ----- Lists that differ in values only -----

  lemma {:induction false} AlignedFilters<T>(a: seq<T>, b: seq<T>, p: T -> bool, f: T -> real, g: T -> real)
    requires |a| == |b|
    requires forall j :: 0 <= j < |a| ==> p(a[j]) == p(b[j]) && (p(a[j]) ==> f(a[j]) <= g(b[j]))
    ensures |Filter(a, p)| == |Filter(b, p)| && Rises(Map(Filter(a, p), f), Map(Filter(b, p), g))
    ensures Sum(Filter(a, p), f) <= Sum(Filter(b, p), g)
    ensures (exists j :: 0 <= j < |a| && p(a[j]) && f(a[j]) < g(b[j])) ==> Sum(Filter(a, p), f) < Sum(Filter(b, p), g)
  {
    if a != [] {
      var n := |a| - 1;
      AlignedFilters(a[..n], b[..n], p, f, g);
      assert a == a[..n] + [a[n]] && b == b[..n] + [b[n]];
      FilterOneMore(a[..n], a[n], p);
      FilterOneMore(b[..n], b[n], p);
      if p(a[n]) {
        OneMoreAligned(Filter(a[..n], p), Filter(b[..n], p), a[n], b[n], f, g);
      }
    } else {
      assert Filter(a, p) == [] && Filter(b, p) == [];
    }
  }

  lemma OneMoreAligned<T>(a: seq<T>, b: seq<T>, x: T, y: T, f: T -> real, g: T -> real)
    requires Rises(Map(a, f), Map(b, g)) && f(x) <= g(y)
    ensures Rises(Map(a + [x], f), Map(b + [y], g))
    ensures Sum(a + [x], f) == Sum(a, f) + f(x) && Sum(b + [y], g) == Sum(b, g) + g(y)
  {
    assert (a + [x])[..|a|] == a && (b + [y])[..|b|] == b;
  }

  lemma {:induction false} AlignedSame<T>(a: seq<T>, b: seq<T>, p: T -> bool)
    requires |a| == |b|
    requires forall j :: 0 <= j < |a| ==> p(a[j]) == p(b[j]) && (p(a[j]) ==> a[j] == b[j])
    ensures Filter(a, p) == Filter(b, p)
  {
    if a != [] {
      AlignedSame(a[..|a| - 1], b[..|b| - 1], p);
    }
  }

  lemma {:induction false} AlignedKeys<T, K>(a: seq<T>, b: seq<T>, p: T -> bool, key: T -> K)
    requires |a| == |b|
    requires forall j :: 0 <= j < |a| ==> p(a[j]) == p(b[j]) && key(a[j]) == key(b[j])
    ensures Keys(Filter(a, p), key) == Keys(Filter(b, p), key)
  {
    if a != [] {
      var n := |a| - 1;
      AlignedKeys(a[..n], b[..n], p, key);
      assert a == a[..n] + [a[n]] && b == b[..n] + [b[n]];
      FilterOneMore(a[..n], a[n], p);
      FilterOneMore(b[..n], b[n], p);
      KeysOneMore(Filter(a[..n], p), a[n], key);
      KeysOneMore(Filter(b[..n], p), b[n], key);
    }
  }

  lemma {:induction false} SumRises<T>(s: seq<T>, f: T -> real, g: T -> real)
    requires forall x :: x in s ==> f(x) <= g(x)
    ensures Sum(s, f) <= Sum(s, g)
    ensures (exists x :: x in s && f(x) < g(x)) ==> Sum(s, f) < Sum(s, g)
  {
    if s != [] {
      SumRises(s[..|s| - 1], f, g);
      assert s == s[..|s| - 1] + [s[|s| - 1]];
    }
  }

  lemma MeanRises<T>(s: seq<T>, f: T -> real, g: T -> real)
    requires forall x :: x in s ==> f(x) <= g(x)
    ensures Mean(s, f) <= Mean(s, g)
    ensures (exists x :: x in s && f(x) < g(x)) ==> Mean(s, f) < Mean(s, g)
  {
    SumRises(s, f, g);
    if s != [] {
      SharesAdd(Sum(s, f), Sum(s, g), |s| as real);
    }
  }

  lemma {:induction false} SumSplits<T>(s: seq<T>, p: T -> bool, q: T -> bool, f: T -> real)
    requires forall x :: x in s ==> p(x) == !q(x)
    ensures Sum(s, f) == Sum(Filter(s, p), f) + Sum(Filter(s, q), f)
    ensures |s| == |Filter(s, p)| + |Filter(s, q)|
  {
    if s != [] {
      var front, last := s[..|s| - 1], s[|s| - 1];
      SumSplits(front, p, q, f);
      assert s == front + [last];
      FilterOneMore(front, last, p);
      FilterOneMore(front, last, q);
      SumOneMore(Filter(front, p), last, f);
      SumOneMore(Filter(front, q), last, f);
    }
  }

  lemma SumOneMore<T>(s: seq<T>, x: T, f: T -> real)
    ensures Sum(s + [x], f) == Sum(s, f) + f(x)
  {
    assert (s + [x])[..|s|] == s;
  }

  lemma {:induction false} SumOfMap<T, U>(s: seq<T>, f: T -> U, g: U -> real, h: T -> real)
    requires forall x :: x in s ==> h(x) == g(f(x))
    ensures Sum(Map(s, f), g) == Sum(s, h) && |Map(s, f)| == |s|
  {
    if s != [] {
      SumOfMap(s[..|s| - 1], f, g, h);
      SumOneMore(Map(s[..|s| - 1], f), f(s[|s| - 1]), g);
    }
  }

  lemma {:induction false} FilterBoth<T>(s: seq<T>, p: T -> bool, q: T -> bool, both: T -> bool)
    requires forall x :: x in s ==> both(x) == (p(x) && q(x))
    ensures Filter(Filter(s, p), q) == Filter(s, both)
  {
    if s != [] {
      var front, last := s[..|s| - 1], s[|s| - 1];
      FilterBoth(front, p, q, both);
      assert s == front + [last];
      FilterOneMore(front, last, p);
      FilterOneMore(front, last, both);
      FilterOneMore(Filter(front, p), last, q);
    }
  }
}
