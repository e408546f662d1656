/**
 * What calls cost and what caching saved, in ideal arithmetic except for the rounding to six decimals
 * that the bills and the report both do on their own.
 */
module CacheSavings {
  import opened Common

  datatype Price = Price(prompt: real, completion: real, readMultiplier: real, writeMultiplier: real)

  datatype Usage = Usage(prompt: int, completion: int, cached: int, written: int)

  const MILLION: real := 1000000.0

  function Micros(n: int): real {
    n as real / MILLION
  }

  /** `round(x, 6)`. */
  function Round6(x: real): real {
    Micros(Nearest(x * MILLION))
  }

  ghost predicate Near(a: real, b: real, micros: real) {
    b - micros / MILLION <= a <= b + micros / MILLION
  }

  ghost predicate WholeMicros(x: real) {
    exists n :: x == Micros(n)
  }

  lemma RoundingIsNear(x: real)
    ensures Near(Round6(x), x, 0.5) && WholeMicros(Round6(x))
  {
  }

  /** Six decimals, no further off than half of the last one, which is even when it is exactly that. */
  lemma RoundsToSixDecimals(x: real) returns (n: int)
    ensures Round6(x) == n as real / 1000000.0
    ensures x - 0.0000005 <= Round6(x) <= x + 0.0000005
    ensures x * 1000000.0 - n as real == 0.5 || n as real - x * 1000000.0 == 0.5 ==> n % 2 == 0
  {
    n := Nearest(x * 1000000.0);
  }

  lemma WholeRoundsToItself(x: real)
    requires WholeMicros(x)
    ensures Round6(x) == x
  {
  }

  lemma WholesAdd(x: real, y: real)
    requires WholeMicros(x) && WholeMicros(y)
    ensures WholeMicros(x + y) && WholeMicros(x - y)
  {
    var n: int :| x == Micros(n);
    var m: int :| y == Micros(m);
    assert x + y == Micros(n + m) && x - y == Micros(n - m);
  }

  // ----- One bill -----

  function Clamped(value: int, most: int): int {
    var low := if value < 0 then 0 else value;
    if low < most then low else most
  }

  function ExactCost(price: Price, usage: Usage): real {
    var cached := Clamped(usage.cached, usage.prompt);
    var uncached := usage.prompt - cached;
    var written := Clamped(usage.written, uncached);
    (uncached as real / 1000.0) * price.prompt
    + (cached as real / 1000.0) * price.prompt * price.readMultiplier
    + (written as real / 1000.0) * price.prompt * (price.writeMultiplier - 1.0)
    + (usage.completion as real / 1000.0) * price.completion
  }

  /** `compute_cost_usd`. */
  function ComputeCost(price: Price, usage: Usage): real {
    Round6(ExactCost(price, usage))
  }

  /** A call without cached tokens is billed its tokens at the two prices per thousand, to six decimals. */
  lemma PlainBill(price: Price, usage: Usage) returns (n: int)
    requires usage.cached == usage.written == 0 <= usage.prompt
    ensures ComputeCost(price, usage) == n as real / 1000000.0
    ensures ComputeCost(price, usage) - 0.0000005
         <= usage.prompt as real * price.prompt / 1000.0 + usage.completion as real * price.completion / 1000.0
         <= ComputeCost(price, usage) + 0.0000005
  {
    n := RoundsToSixDecimals(ExactCost(price, usage));
    PerThousand(usage.prompt as real, price.prompt);
    PerThousand(usage.completion as real, price.completion);
    assert Clamped(usage.cached, usage.prompt) == 0 && Clamped(usage.written, usage.prompt) == 0;
    assert 0.0 / 1000.0 * price.prompt * price.readMultiplier == 0.0;
    assert 0.0 / 1000.0 * price.prompt * (price.writeMultiplier - 1.0) == 0.0;
  }

  lemma PerThousand(tokens: real, price: real)
    ensures (tokens / 1000.0) * price == tokens * price / 1000.0
  {
  }

  /** The same call with nothing cached. */
  function Undiscounted(price: Price, usage: Usage): real {
    (usage.prompt as real / 1000.0) * price.prompt + (usage.completion as real / 1000.0) * price.completion
  }

  /** Reads and writes are disjoint parts of the prompt. */
  predicate Plausible(usage: Usage) {
    0 <= usage.cached && 0 <= usage.written && usage.cached + usage.written <= usage.prompt
  }

  function ReadSaving(price: Price, cached: int): real {
    (cached as real / 1000.0) * price.prompt * (1.0 - price.readMultiplier)
  }

  function WritePremium(price: Price, written: int): real {
    (written as real / 1000.0) * price.prompt * (price.writeMultiplier - 1.0)
  }

  lemma DiscountOfOneCall(price: Price, usage: Usage)
    requires Plausible(usage)
    ensures Undiscounted(price, usage) - ExactCost(price, usage)
         == ReadSaving(price, usage.cached) - WritePremium(price, usage.written)
  {
  }

  lemma SavingsAreLinear(price: Price, a: int, b: int)
    ensures ReadSaving(price, a + b) == ReadSaving(price, a) + ReadSaving(price, b)
    ensures WritePremium(price, a + b) == WritePremium(price, a) + WritePremium(price, b)
  {
  }

  /** What the two clamps take off the recorded counts. */
  function CutReads(usage: Usage): int {
    usage.cached - Clamped(usage.cached, usage.prompt)
  }

  function CutWrites(usage: Usage): int {
    usage.written - Clamped(usage.written, usage.prompt - Clamped(usage.cached, usage.prompt))
  }

  /** For any usage the report differs from the bill by exactly the savings on what the clamps took off. */
  lemma ReportIsOffByTheCuts(price: Price, usage: Usage)
    ensures ReadSaving(price, usage.cached) - WritePremium(price, usage.written)
         == Undiscounted(price, usage) - ExactCost(price, usage)
            + (ReadSaving(price, CutReads(usage)) - WritePremium(price, CutWrites(usage)))
  {
    var cached := Clamped(usage.cached, usage.prompt);
    var written := Clamped(usage.written, usage.prompt - cached);
    SavingsAreLinear(price, cached, CutReads(usage));
    SavingsAreLinear(price, written, CutWrites(usage));
    ClampedDiscount(price, usage, cached, written);
  }

  lemma ClampedDiscount(price: Price, usage: Usage, cached: int, written: int)
    requires cached == Clamped(usage.cached, usage.prompt) && written == Clamped(usage.written, usage.prompt - cached)
    ensures Undiscounted(price, usage) - ExactCost(price, usage) == ReadSaving(price, cached) - WritePremium(price, written)
  {
    var p, r := price.prompt, price.readMultiplier;
    var c, u := cached as real / 1000.0, (usage.prompt - cached) as real / 1000.0;
    assert usage.prompt as real / 1000.0 == u + c;
    assert (u + c) * p == u * p + c * p;
    assert c * p * (1.0 - r) == c * p - c * p * r;
  }

  ghost predicate ReportedRightly(price: Price, usage: Usage) {
    Undiscounted(price, usage) - ExactCost(price, usage) == ReadSaving(price, usage.cached) - WritePremium(price, usage.written)
  }

  /** At every price the report and the bill agree exactly when neither clamp takes anything off. */
  lemma ReportedRightlyIff(usage: Usage)
    ensures (forall price :: ReportedRightly(price, usage)) <==> CutReads(usage) == 0 && CutWrites(usage) == 0
    ensures usage.prompt >= 0 ==> ((forall price :: ReportedRightly(price, usage)) <==> Plausible(usage))
  {
    if CutReads(usage) == 0 && CutWrites(usage) == 0 {
      forall price ensures ReportedRightly(price, usage) {
        ReportIsOffByTheCuts(price, usage);
      }
    } else if CutReads(usage) != 0 {
      var readsOnly := Price(1000.0, 0.0, 0.0, 1.0);
      ReportIsOffByTheCuts(readsOnly, usage);
      assert !ReportedRightly(readsOnly, usage);
    } else {
      var writesOnly := Price(1000.0, 0.0, 1.0, 2.0);
      ReportIsOffByTheCuts(writesOnly, usage);
      assert !ReportedRightly(writesOnly, usage);
    }
  }

  /** Reads recorded beyond the prompt make the report claim more than was saved, by the discount on the excess. */
  lemma ExcessReadsOverstate(price: Price, usage: Usage)
    requires 0 <= usage.prompt < usage.cached && usage.written == 0
    requires price.prompt > 0.0 && price.readMultiplier < 1.0
    ensures ReadSaving(price, usage.cached) - WritePremium(price, usage.written)
          > Undiscounted(price, usage) - ExactCost(price, usage)
  {
    ReportIsOffByTheCuts(price, usage);
    var excess := CutReads(usage) as real / 1000.0;
    assert excess * price.prompt > 0.0;
    assert excess * price.prompt * (1.0 - price.readMultiplier) > 0.0;
  }

  // ----- The report -----

  /** The billed calls of one model and lane; their price has not changed. */
  datatype Group = Group(price: Option<Price>, calls: seq<Usage>)

  const UNKNOWN_PRICE: Price := Price(0.0, 0.0, 0.1, 1.0)

  function PriceOf(price: Option<Price>): Price {
    if price.Some? then price.value else UNKNOWN_PRICE
  }

  function Cached(calls: seq<Usage>): int {
    if calls == [] then 0 else Cached(calls[..|calls| - 1]) + calls[|calls| - 1].cached
  }

  function Written(calls: seq<Usage>): int {
    if calls == [] then 0 else Written(calls[..|calls| - 1]) + calls[|calls| - 1].written
  }

  datatype Line = Line(readSavings: real, writePremium: real, net: real)

  function LineOf(group: Group): Line {
    var read := Round6(ReadSaving(PriceOf(group.price), Cached(group.calls)));
    var premium := Round6(WritePremium(PriceOf(group.price), Written(group.calls)));
    Line(read, premium, Round6(read - premium))
  }

  /** A model without a known price is reported to save nothing and to cost nothing extra. */
  lemma UnknownPriceSavesNothing(group: Group)
    requires group.price.None?
    ensures LineOf(group) == Line(0.0, 0.0, 0.0)
  {
    assert ReadSaving(UNKNOWN_PRICE, Cached(group.calls)) == 0.0;
    assert WritePremium(UNKNOWN_PRICE, Written(group.calls)) == 0.0;
    assert Nearest(0.0) == 0;
  }

  ghost function SumOfNets(groups: seq<Group>): real {
    if groups == [] then 0.0 else SumOfNets(groups[..|groups| - 1]) + LineOf(groups[|groups| - 1]).net
  }

  ghost function SumOfReads(groups: seq<Group>): real {
    if groups == [] then 0.0 else SumOfReads(groups[..|groups| - 1]) + LineOf(groups[|groups| - 1]).readSavings
  }

  ghost function SumOfPremiums(groups: seq<Group>): real {
    if groups == [] then 0.0 else SumOfPremiums(groups[..|groups| - 1]) + LineOf(groups[|groups| - 1]).writePremium
  }

  datatype Total = Total(readSavings: real, writePremium: real, net: real, cached: int, written: int)

  ghost function AllCalls(groups: seq<Group>): seq<Usage> {
    if groups == [] then [] else AllCalls(groups[..|groups| - 1]) + groups[|groups| - 1].calls
  }

  lemma {:induction false} TokensAdd(calls: seq<Usage>, more: seq<Usage>)
    ensures Cached(calls + more) == Cached(calls) + Cached(more)
    ensures Written(calls + more) == Written(calls) + Written(more)
  {
    if more == [] {
      assert calls + more == calls;
    } else {
      assert (calls + more)[..|calls + more| - 1] == calls + more[..|more| - 1];
      TokensAdd(calls, more[..|more| - 1]);
    }
  }

  /** `cache_savings`: one line per group, and totals that the last rounding leaves exact. */
  method Report(groups: seq<Group>) returns (lines: seq<Line>, total: Total)
    ensures |lines| == |groups| && forall i :: 0 <= i < |groups| ==> lines[i] == LineOf(groups[i])
    ensures total.net == SumOfNets(groups) == SumOfReads(groups) - SumOfPremiums(groups)
    ensures total.readSavings == SumOfReads(groups) && total.writePremium == SumOfPremiums(groups)
    ensures total.cached == Cached(AllCalls(groups)) && total.written == Written(AllCalls(groups))
  {
    lines, total := [], Total(0.0, 0.0, 0.0, 0, 0);
    for i := 0 to |groups|
      invariant |lines| == i && forall k :: 0 <= k < i ==> lines[k] == LineOf(groups[k])
      invariant total.net == SumOfNets(groups[..i])
      invariant total.readSavings == SumOfReads(groups[..i]) && total.writePremium == SumOfPremiums(groups[..i])
      invariant total.cached == Cached(AllCalls(groups[..i])) && total.written == Written(AllCalls(groups[..i]))
    {
      var line := LineOf(groups[i]);
      lines := lines + [line];
      assert groups[..i + 1][..i] == groups[..i];
      TokensAdd(AllCalls(groups[..i]), groups[i].calls);
      total := Total(
        total.readSavings + line.readSavings, total.writePremium + line.writePremium, total.net + line.net,
        total.cached + Cached(groups[i].calls), total.written + Written(groups[i].calls));
    }
    assert groups[..|groups|] == groups;
    TotalsAreWhole(groups);
    WholeRoundsToItself(total.net);
    WholeRoundsToItself(total.readSavings);
    WholeRoundsToItself(total.writePremium);
    total := total.(readSavings := Round6(total.readSavings), writePremium := Round6(total.writePremium), net := Round6(total.net));
  }

  lemma LineIsExactDifference(group: Group)
    ensures LineOf(group).net == LineOf(group).readSavings - LineOf(group).writePremium
    ensures WholeMicros(LineOf(group).net) && WholeMicros(LineOf(group).readSavings) && WholeMicros(LineOf(group).writePremium)
  {
    var price := PriceOf(group.price);
    RoundingIsNear(ReadSaving(price, Cached(group.calls)));
    RoundingIsNear(WritePremium(price, Written(group.calls)));
    WholesAdd(LineOf(group).readSavings, LineOf(group).writePremium);
    WholeRoundsToItself(LineOf(group).readSavings - LineOf(group).writePremium);
  }

  lemma {:induction false} TotalsAreWhole(groups: seq<Group>)
    ensures WholeMicros(SumOfNets(groups)) && WholeMicros(SumOfReads(groups)) && WholeMicros(SumOfPremiums(groups))
    ensures SumOfNets(groups) == SumOfReads(groups) - SumOfPremiums(groups)
  {
    if groups == [] {
      assert 0.0 == Micros(0);
    } else {
      var front, line := groups[..|groups| - 1], LineOf(groups[|groups| - 1]);
      TotalsAreWhole(front);
      LineIsExactDifference(groups[|groups| - 1]);
      WholesAdd(SumOfNets(front), line.net);
      WholesAdd(SumOfReads(front), line.readSavings);
      WholesAdd(SumOfPremiums(front), line.writePremium);
    }
  }

  // ----- The report against the bills -----

  /** Undiscounted minus billed, over the calls of one price. */
  ghost function Discount(price: Price, calls: seq<Usage>): real {
    if calls == [] then 0.0
    else
      Discount(price, calls[..|calls| - 1])
      + (Undiscounted(price, calls[|calls| - 1]) - ComputeCost(price, calls[|calls| - 1]))
  }

  /** What the clamps of the bills take off the reads and writes of the calls. */
  ghost function AllCutReads(calls: seq<Usage>): int {
    if calls == [] then 0 else AllCutReads(calls[..|calls| - 1]) + CutReads(calls[|calls| - 1])
  }

  ghost function AllCutWrites(calls: seq<Usage>): int {
    if calls == [] then 0 else AllCutWrites(calls[..|calls| - 1]) + CutWrites(calls[|calls| - 1])
  }

  /** The saving on what the bills cut off, which the report claims and the bills do not give. */
  ghost function Unbilled(price: Price, calls: seq<Usage>): real {
    ReadSaving(price, AllCutReads(calls)) - WritePremium(price, AllCutWrites(calls))
  }

  lemma {:induction false} DiscountOfCalls(price: Price, calls: seq<Usage>)
    ensures Near(Discount(price, calls),
                 ReadSaving(price, Cached(calls)) - WritePremium(price, Written(calls)) - Unbilled(price, calls),
                 |calls| as real / 2.0)
  {
    if calls != [] {
      var front, last := calls[..|calls| - 1], calls[|calls| - 1];
      DiscountOfCalls(price, front);
      ReportIsOffByTheCuts(price, last);
      RoundingIsNear(ExactCost(price, last));
      SavingsAreLinear(price, Cached(front), last.cached);
      SavingsAreLinear(price, Written(front), last.written);
      SavingsAreLinear(price, AllCutReads(front), CutReads(last));
      SavingsAreLinear(price, AllCutWrites(front), CutWrites(last));
    }
  }

  /** For any calls a line exceeds what the bills fell short of full price by the unbilled saving, within rounding. */
  lemma LineIsOffByTheCuts(group: Group)
    ensures Near(Discount(PriceOf(group.price), group.calls),
                 LineOf(group).net - Unbilled(PriceOf(group.price), group.calls), |group.calls| as real / 2.0 + 1.0)
  {
    var price := PriceOf(group.price);
    DiscountOfCalls(price, group.calls);
    LineIsExactDifference(group);
    RoundingIsNear(ReadSaving(price, Cached(group.calls)));
    RoundingIsNear(WritePremium(price, Written(group.calls)));
  }

  lemma {:induction false} PlausibleCutsNothing(price: Price, calls: seq<Usage>)
    requires forall i :: 0 <= i < |calls| ==> Plausible(calls[i])
    ensures AllCutReads(calls) == AllCutWrites(calls) == 0 && Unbilled(price, calls) == 0.0
  {
    if calls != [] {
      PlausibleCutsNothing(price, calls[..|calls| - 1]);
    }
  }

  /** The line of one model is its calls' discount within half a micro-dollar a call and one more. */
  lemma LineMatchesBills(group: Group)
    requires forall i :: 0 <= i < |group.calls| ==> Plausible(group.calls[i])
    ensures Near(Discount(PriceOf(group.price), group.calls), LineOf(group).net, |group.calls| as real / 2.0 + 1.0)
  {
    LineIsOffByTheCuts(group);
    PlausibleCutsNothing(PriceOf(group.price), group.calls);
  }

  ghost function TotalDiscount(groups: seq<Group>): real {
    if groups == [] then 0.0
    else
      var last := groups[|groups| - 1];
      TotalDiscount(groups[..|groups| - 1]) + Discount(PriceOf(last.price), last.calls)
  }

  ghost function CallCount(groups: seq<Group>): nat {
    if groups == [] then 0 else CallCount(groups[..|groups| - 1]) + |groups[|groups| - 1].calls|
  }

  ghost predicate AllPlausible(groups: seq<Group>) {
    forall g, i :: 0 <= g < |groups| && 0 <= i < |groups[g].calls| ==> Plausible(groups[g].calls[i])
  }

  ghost function TotalUnbilled(groups: seq<Group>): real {
    if groups == [] then 0.0
    else
      var last := groups[|groups| - 1];
      TotalUnbilled(groups[..|groups| - 1]) + Unbilled(PriceOf(last.price), last.calls)
  }

  /** For any calls the reported total exceeds what the bills fell short of full price by the unbilled savings. */
  lemma {:induction false} TotalIsOffByTheCuts(groups: seq<Group>)
    ensures Near(TotalDiscount(groups), SumOfNets(groups) - TotalUnbilled(groups), CallCount(groups) as real / 2.0 + |groups| as real)
  {
    if groups != [] {
      TotalIsOffByTheCuts(groups[..|groups| - 1]);
      LineIsOffByTheCuts(groups[|groups| - 1]);
    }
  }

  lemma {:induction false} PlausibleLeavesNothingUnbilled(groups: seq<Group>)
    requires AllPlausible(groups)
    ensures TotalUnbilled(groups) == 0.0
  {
    if groups != [] {
      var last := groups[|groups| - 1];
      PlausibleLeavesNothingUnbilled(groups[..|groups| - 1]);
      PlausibleCutsNothing(PriceOf(last.price), last.calls);
    }
  }

  /** The reported total is what the bills fell short of full price, within half a micro-dollar a call and one a line. */
  lemma TotalMatchesBills(groups: seq<Group>)
    requires AllPlausible(groups)
    ensures Near(TotalDiscount(groups), SumOfNets(groups), CallCount(groups) as real / 2.0 + |groups| as real)
  {
    TotalIsOffByTheCuts(groups);
    PlausibleLeavesNothingUnbilled(groups);
  }
}
