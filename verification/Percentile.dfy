/** Percentile ranks: the cohort-relative scale on which ratings of different sources are compared. */
module Percentile {
  import opened Common
  import Lists

  /** How much of `p` counts as below `value`: all, half on a tie, or nothing. */
  function Weight(p: real, value: real): real {
    if p < value then 1.0 else if p == value then 0.5 else 0.0
  }

  ghost function Below(value: real, population: seq<real>): nat {
    if population == [] then 0
    else Below(value, population[..|population| - 1]) + if population[|population| - 1] < value then 1 else 0
  }

  ghost function Ties(value: real, population: seq<real>): nat {
    if population == [] then 0
    else Ties(value, population[..|population| - 1]) + if population[|population| - 1] == value then 1 else 0
  }

  ghost function Rank(value: real, population: seq<real>): real {
    if |population| <= 1 then 0.5
    else (Below(value, population) as real + 0.5 * Ties(value, population) as real) / |population| as real
  }

  /** `_percentile`. */
  method PercentileRank(value: real, population: seq<real>) returns (rank: real)
    ensures rank == Rank(value, population)
  {
    var n := |population|;
    if n <= 1 {
      return 0.5;
    }
    var below, equal := 0, 0;
    for i := 0 to n
      invariant below == Below(value, population[..i]) && equal == Ties(value, population[..i])
    {
      assert population[..i + 1][..i] == population[..i];
      if population[i] < value {
        below := below + 1;
      }
      if population[i] == value {
        equal := equal + 1;
      }
    }
    assert population[..n] == population;
    return (below as real + 0.5 * equal as real) / n as real;
  }

  // ----- The ranks of a whole population -----

  /** The weight of the whole population against `value`. */
  ghost function Total(value: real, population: seq<real>): real {
    Lists.Sum(population, p => Weight(p, value))
  }

  lemma {:induction false} RankIsShare(value: real, population: seq<real>)
    ensures Total(value, population) == Below(value, population) as real + 0.5 * Ties(value, population) as real
    ensures |population| > 1 ==> Rank(value, population) == Total(value, population) / |population| as real
  {
    if population != [] {
      RankIsShare(value, population[..|population| - 1]);
    }
  }

  /** Every value of `values` weighed against the whole of `population`. */
  ghost function SumOfTotals(values: seq<real>, population: seq<real>): real {
    if values == [] then 0.0
    else SumOfTotals(values[..|values| - 1], population) + Total(values[|values| - 1], population)
  }

  ghost function SumOfRanks(values: seq<real>, population: seq<real>): real {
    if values == [] then 0.0
    else SumOfRanks(values[..|values| - 1], population) + Rank(values[|values| - 1], population)
  }

  /** Adding one element to the population adds its weight against each value; the two directions make one. */
  lemma {:induction false} OneMorePeer(values: seq<real>, population: seq<real>, peer: real)
    ensures SumOfTotals(values, population + [peer]) + Total(peer, values) == SumOfTotals(values, population) + |values| as real
  {
    if values != [] {
      var front, last := values[..|values| - 1], values[|values| - 1];
      OneMorePeer(front, population, peer);
      assert (population + [peer])[..|population|] == population;
      assert Weight(peer, last) + Weight(last, peer) == 1.0;
    }
  }

  lemma {:induction false} WeightsBalance(population: seq<real>)
    ensures SumOfTotals(population, population) == (|population| * |population|) as real / 2.0
  {
    if population != [] {
      var front, last := population[..|population| - 1], population[|population| - 1];
      WeightsBalance(front);
      OneMorePeer(front, front, last);
      assert population == front + [last];
      assert Total(last, population) == Total(last, front) + 0.5;
      assert |population| * |population| == |front| * |front| + 2 * |front| + 1;
    }
  }

  lemma {:induction false} RanksAreShares(values: seq<real>, population: seq<real>)
    requires |population| > 1
    ensures SumOfRanks(values, population) == SumOfTotals(values, population) / |population| as real
  {
    if values != [] {
      var front, last := values[..|values| - 1], values[|values| - 1];
      RanksAreShares(front, population);
      RankIsShare(last, population);
      SharesAdd(SumOfTotals(front, population), Total(last, population), |population| as real);
    }
  }

  /** The ranks of a population always add up to half its size. */
  lemma RanksSumToHalf(population: seq<real>)
    ensures SumOfRanks(population, population) == |population| as real / 2.0
  {
    if |population| > 1 {
      WeightsBalance(population);
      RanksAreShares(population, population);
      var n := |population| as real;
      assert (|population| * |population|) as real == n * n;
      assert n * n / 2.0 / n == n / 2.0;
    } else if |population| == 1 {
      assert population[..0] == [];
    }
  }

  // ----- A single rank -----

  lemma {:induction false} CountsFit(value: real, population: seq<real>)
    ensures Below(value, population) + Ties(value, population) <= |population|
    ensures value in population ==> Ties(value, population) > 0
  {
    if population != [] {
      var front := population[..|population| - 1];
      CountsFit(value, front);
      assert population == front + [population[|population| - 1]];
    }
  }

  lemma RankInRange(value: real, population: seq<real>)
    ensures 0.0 <= Rank(value, population) <= 1.0
    ensures value in population ==> 0.0 < Rank(value, population) < 1.0
  {
    CountsFit(value, population);
    if |population| > 1 {
      var n := |population| as real;
      var share := Below(value, population) as real + 0.5 * Ties(value, population) as real;
      assert 0.0 <= share <= n && (value in population ==> 0.0 < share < n);
      SharesAdd(0.0, share, n);
      SharesAdd(share, n, n);
      assert 0.0 / n == 0.0 && n / n == 1.0;
    }
  }

  lemma {:induction false} MoreIsBelowMore(value: real, higher: real, population: seq<real>)
    requires value < higher
    ensures Below(value, population) + Ties(value, population) <= Below(higher, population)
  {
    if population != [] {
      MoreIsBelowMore(value, higher, population[..|population| - 1]);
    }
  }

  /** Ranks follow the values, strictly between two members. */
  lemma RankIsMonotone(value: real, higher: real, population: seq<real>)
    requires value <= higher
    ensures Rank(value, population) <= Rank(higher, population)
    ensures |population| > 1 && value < higher && value in population && higher in population ==>
              Rank(value, population) < Rank(higher, population)
  {
    if value < higher && |population| > 1 {
      MoreIsBelowMore(value, higher, population);
      CountsFit(value, population);
      CountsFit(higher, population);
      var n := |population| as real;
      var low := Below(value, population) as real + 0.5 * Ties(value, population) as real;
      var high := Below(higher, population) as real + 0.5 * Ties(higher, population) as real;
      SharesAdd(low, high, n);
    }
  }

  ghost predicate Increasing(f: real -> real) {
    forall x: real, y: real :: x < y ==> f(x) < f(y)
  }

  ghost function Rescaled(f: real -> real, population: seq<real>): (scaled: seq<real>)
    ensures |scaled| == |population|
  {
    seq(|population|, i requires 0 <= i < |population| => f(population[i]))
  }

  lemma {:induction false} RescalingKeepsCounts(f: real -> real, value: real, population: seq<real>)
    requires Increasing(f)
    ensures Below(f(value), Rescaled(f, population)) == Below(value, population)
    ensures Ties(f(value), Rescaled(f, population)) == Ties(value, population)
  {
    if population != [] {
      var n := |population| - 1;
      RescalingKeepsCounts(f, value, population[..n]);
      assert Rescaled(f, population)[..n] == Rescaled(f, population[..n]);
      assert population[n] < value ==> f(population[n]) < f(value);
      assert population[n] > value ==> f(population[n]) > f(value);
    }
  }

  /** No strictly increasing change of scale moves a rank: drift of a rating scale is invisible. */
  lemma RankIgnoresScale(f: real -> real, value: real, population: seq<real>)
    requires Increasing(f)
    ensures Rank(f(value), Rescaled(f, population)) == Rank(value, population)
  {
    RescalingKeepsCounts(f, value, population);
  }

  /** A rank does not depend on the order in which the population was read. */
  lemma RankIgnoresOrder(value: real, population: seq<real>, shuffled: seq<real>)
    requires multiset(population) == multiset(shuffled)
    ensures Rank(value, population) == Rank(value, shuffled)
  {
    RankIsShare(value, population);
    RankIsShare(value, shuffled);
    Lists.SumIgnoresOrder(population, shuffled, p => Weight(p, value), p => Weight(p, value));
  }

  // ----- Some members raised -----

  lemma TotalFollows(value: real, higher: real, population: seq<real>)
    requires value <= higher
    ensures Total(value, population) <= Total(higher, population)
  {
    Lists.SumRises(population, p => Weight(p, value), p => Weight(p, higher));
  }

  lemma {:induction false} SumFollows(values: seq<real>, raised: seq<real>, population: seq<real>)
    requires Lists.Rises(values, raised)
    ensures SumOfTotals(values, population) <= SumOfTotals(raised, population)
  {
    if values != [] {
      var n := |values| - 1;
      SumFollows(values[..n], raised[..n], population);
      TotalFollows(values[n], raised[n], population);
    }
  }

  /** The population is made up of two parts, as far as weights go. */
  ghost predicate MadeUp(population: seq<real>, part: seq<real>, rest: seq<real>) {
    forall x: real :: Total(x, population) == Total(x, part) + Total(x, rest)
  }

  lemma {:induction false} SumOverParts(values: seq<real>, population: seq<real>, part: seq<real>, rest: seq<real>)
    requires MadeUp(population, part, rest)
    ensures SumOfTotals(values, population) == SumOfTotals(values, part) + SumOfTotals(values, rest)
  {
    if values != [] {
      SumOverParts(values[..|values| - 1], population, part, rest);
    }
  }

  lemma {:induction false} LoneRanks(values: seq<real>, population: seq<real>)
    requires |population| <= 1
    ensures SumOfRanks(values, population) == 0.5 * |values| as real
  {
    if values != [] {
      LoneRanks(values[..|values| - 1], population);
    }
  }

  /** What raised members lose to each other they also win from each other: together their ranks never fall. */
  lemma TogetherTheyRise(
    part: seq<real>, raised: seq<real>, rest: seq<real>, population: seq<real>, changed: seq<real>)
    requires Lists.Rises(part, raised) && |population| == |changed|
    requires MadeUp(population, part, rest) && MadeUp(changed, raised, rest)
    ensures SumOfRanks(part, population) <= SumOfRanks(raised, changed)
  {
    if |population| <= 1 {
      LoneRanks(part, population);
      LoneRanks(raised, changed);
    } else {
      RanksAreShares(part, population);
      RanksAreShares(raised, changed);
      SumOverParts(part, population, part, rest);
      SumOverParts(raised, changed, raised, rest);
      WeightsBalance(part);
      WeightsBalance(raised);
      SumFollows(part, raised, rest);
      SharesAdd(SumOfTotals(part, population), SumOfTotals(raised, changed), |population| as real);
    }
  }
}
