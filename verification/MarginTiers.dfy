/**
 * Tiered margin: the piecewise-linear requirement orderbreakdown.go evaluates
 * with a rate and a running deduction, and the loop that inverts it. Amounts
 * are exact reals.
 *
 * A table is a sequence of lower bounds and, beside each, the rate charged
 * from that bound on; the first rate is also the one below the first bound.
 */
module MarginTiers {

  ghost predicate Table(bounds: seq<real>, rates: seq<real>) {
    && |bounds| == |rates| > 0
    && (forall i :: 0 <= i < |bounds| ==> 0.0 <= bounds[i])
    && (forall i, j :: 0 <= i < j < |bounds| ==> bounds[i] <= bounds[j])
  }

  /** The rate in force once the first j tiers have been entered. */
  function RateAfter(rates: seq<real>, j: nat): real
    requires 0 < |rates| && j <= |rates|
  {
    if j == 0 then rates[0] else rates[j - 1]
  }

  /** The deduction after entering a tier: it keeps the line continuous at the bound. */
  function Deduct(prev: real, lowerBound: real, rate: real, prevRate: real): real {
    prev + lowerBound * (rate - prevRate)
  }

  /** The straight line a stage follows. */
  function LineAt(n: real, rate: real, deduction: real): real { n * rate - deduction }

  /** The same line with the fee on top. */
  function CostAt(n: real, rate: real, deduction: real, fee: real): real { n * rate - deduction + n * fee }

  /** The deduction accumulated over the first j tiers. */
  function Deduction(bounds: seq<real>, rates: seq<real>, j: nat): real
    requires 0 < |rates| == |bounds| && j <= |rates|
  {
    if j == 0 then 0.0
    else Deduct(Deduction(bounds, rates, j - 1), bounds[j - 1], rates[j - 1], RateAfter(rates, j - 1))
  }

  /** How many leading tiers, from tier i on, have a bound at or below n. */
  function ActiveFrom(bounds: seq<real>, n: real, i: nat): (k: nat)
    requires i <= |bounds|
    ensures i <= k <= |bounds|
    ensures forall j :: i <= j < k ==> bounds[j] <= n
    ensures k < |bounds| ==> n < bounds[k]
    decreases |bounds| - i
  {
    if i < |bounds| && bounds[i] <= n then ActiveFrom(bounds, n, i + 1) else i
  }

  function Active(bounds: seq<real>, n: real): nat { ActiveFrom(bounds, n, 0) }

  /** The line of stage j of the table. */
  function Line(bounds: seq<real>, rates: seq<real>, j: nat, n: real): real
    requires 0 < |rates| == |bounds| && j <= |rates|
  {
    LineAt(n, RateAfter(rates, j), Deduction(bounds, rates, j))
  }

  /** The requirement at notional n, as the loops compute it. */
  function Requirement(bounds: seq<real>, rates: seq<real>, n: real): real
    requires 0 < |rates| == |bounds|
  {
    Line(bounds, rates, Active(bounds, n), n)
  }

  // ------------------------------------------------- the area under the rate

  /** Where stage j of the table starts. */
  function Start(bounds: seq<real>, j: nat): real
    requires j <= |bounds|
  {
    if j == 0 then 0.0 else bounds[j - 1]
  }

  /** How much of [0, n] lies in stage j. */
  function Width(bounds: seq<real>, j: nat, n: real): real
    requires j <= |bounds|
  {
    var end := if j < |bounds| && bounds[j] < n then bounds[j] else n;
    if end < Start(bounds, j) then 0.0 else end - Start(bounds, j)
  }

  ghost function Strip(rate: real, width: real): real { rate * width }

  /** The area under the rate over the part of [0, n] in the first j stages. */
  ghost function Area(bounds: seq<real>, rates: seq<real>, j: nat, n: real): real
    requires 0 < |rates| == |bounds| && j <= |bounds| + 1
  {
    if j == 0 then 0.0
    else Area(bounds, rates, j - 1, n) + Strip(RateAfter(rates, j - 1), Width(bounds, j - 1, n))
  }

  /** Along a stage its line grows by the strip of area crossed. */
  lemma LineAdvances(bounds: seq<real>, rates: seq<real>, j: nat, x: real, y: real)
    requires 0 < |rates| == |bounds| && j <= |bounds|
    ensures Line(bounds, rates, j, x) + Strip(RateAfter(rates, j), y - x) == Line(bounds, rates, j, y)
  {
    hide RateAfter, Deduction;
  }

  /** Entering a tier does not jump: the lines of stages j and j+1 meet at the bound between them. */
  lemma LinesMeet(bounds: seq<real>, rates: seq<real>, j: nat)
    requires 0 < |rates| == |bounds| && j < |bounds|
    ensures Line(bounds, rates, j, bounds[j]) == Line(bounds, rates, j + 1, bounds[j])
  {
  }

  lemma {:induction false} AreaOfEntered(bounds: seq<real>, rates: seq<real>, j: nat, n: real)
    requires Table(bounds, rates) && j <= |bounds|
    requires forall i :: 0 <= i < j ==> bounds[i] <= n
    ensures Area(bounds, rates, j, n) == Line(bounds, rates, j, Start(bounds, j))
  {
    hide Strip;
    if j > 0 {
      AreaOfEntered(bounds, rates, j - 1, n);
      assert Width(bounds, j - 1, n) == bounds[j - 1] - Start(bounds, j - 1);
      LineAdvances(bounds, rates, j - 1, Start(bounds, j - 1), bounds[j - 1]);
      LinesMeet(bounds, rates, j - 1);
      hide Line;
    }
  }

  lemma {:induction false} AreaBeyond(bounds: seq<real>, rates: seq<real>, k: nat, j: nat, n: real)
    requires Table(bounds, rates) && k < j <= |bounds| + 1
    requires forall i :: k <= i < |bounds| ==> n <= bounds[i]
    ensures Area(bounds, rates, j, n) == Area(bounds, rates, k + 1, n)
  {
    if k + 1 < j {
      AreaBeyond(bounds, rates, k, j - 1, n);
      assert n <= bounds[j - 2];
      assert Width(bounds, j - 1, n) == 0.0;
    }
  }

  /** The requirement is the area under the rate: the independent reading of a tier table. */
  lemma RequirementIsArea(bounds: seq<real>, rates: seq<real>, n: real)
    requires Table(bounds, rates) && 0.0 <= n
    ensures Requirement(bounds, rates, n) == Area(bounds, rates, |bounds| + 1, n)
  {
    hide Line, Strip;
    var k := Active(bounds, n);
    AreaOfEntered(bounds, rates, k, n);
    assert Area(bounds, rates, |bounds| + 1, n) == Area(bounds, rates, k + 1, n) by {
      forall i | k <= i < |bounds|
        ensures n <= bounds[i]
      {
        assert n < bounds[k] <= bounds[i];
      }
      AreaBeyond(bounds, rates, k, |bounds| + 1, n);
    }
    assert Width(bounds, k, n) == n - Start(bounds, k);
    LineAdvances(bounds, rates, k, Start(bounds, k), n);
  }

  // ------------------------------------------------- slope

  ghost function TotalWidth(bounds: seq<real>, j: nat, n: real): real
    requires j <= |bounds| + 1
  {
    if j == 0 then 0.0 else TotalWidth(bounds, j - 1, n) + Width(bounds, j - 1, n)
  }

  /** The stages partition [0, n]. */
  lemma WidthsPartition(bounds: seq<real>, n: real)
    requires Table(bounds, bounds) && 0.0 <= n
    ensures TotalWidth(bounds, |bounds| + 1, n) == n
  {
    WidthsUpTo(bounds, |bounds|, n);
    assert Width(bounds, |bounds|, n) == if n < Start(bounds, |bounds|) then 0.0 else n - Start(bounds, |bounds|);
  }

  lemma {:induction false} WidthsUpTo(bounds: seq<real>, j: nat, n: real)
    requires Table(bounds, bounds) && 0.0 <= n && j <= |bounds|
    ensures TotalWidth(bounds, j, n) == if n < Start(bounds, j) then n else Start(bounds, j)
  {
    if j > 0 {
      WidthsUpTo(bounds, j - 1, n);
      assert Start(bounds, j - 1) <= Start(bounds, j);
    }
  }

  lemma WidthNonNegative(bounds: seq<real>, j: nat, n: real)
    requires j <= |bounds|
    ensures 0.0 <= Width(bounds, j, n)
  {
  }

  lemma WidthGrows(bounds: seq<real>, j: nat, x: real, y: real)
    requires j <= |bounds| && x <= y
    ensures Width(bounds, j, x) <= Width(bounds, j, y)
  {
  }

  /** Over the first j stages the area grows between lo and hi times the width gained. */
  lemma {:induction false} AreaSlope(bounds: seq<real>, rates: seq<real>, j: nat, x: real, y: real, lo: real, hi: real)
    requires Table(bounds, rates) && j <= |bounds| + 1 && x <= y
    requires forall i :: 0 <= i < j && Width(bounds, i, x) < Width(bounds, i, y) ==> lo <= RateAfter(rates, i) <= hi
    ensures var dw := TotalWidth(bounds, j, y) - TotalWidth(bounds, j, x);
            Strip(lo, dw) <= Area(bounds, rates, j, y) - Area(bounds, rates, j, x) <= Strip(hi, dw)
  {
    if j > 0 {
      hide Width;
      AreaSlope(bounds, rates, j - 1, x, y, lo, hi);
      WidthGrows(bounds, j - 1, x, y);
      var w, v := Width(bounds, j - 1, x), Width(bounds, j - 1, y);
      var dw := TotalWidth(bounds, j - 1, y) - TotalWidth(bounds, j - 1, x);
      assert TotalWidth(bounds, j, y) - TotalWidth(bounds, j, x) == dw + (v - w);
      SlopeStep(lo, hi, RateAfter(rates, j - 1), w, v, dw,
                Area(bounds, rates, j - 1, y) - Area(bounds, rates, j - 1, x));
      hide Strip;
    }
  }

  lemma SlopeStep(lo: real, hi: real, r: real, w: real, v: real, dw: real, da: real)
    requires w <= v && (w < v ==> lo <= r <= hi)
    requires Strip(lo, dw) <= da <= Strip(hi, dw)
    ensures Strip(lo, dw + (v - w)) <= da + (Strip(r, v) - Strip(r, w)) <= Strip(hi, dw + (v - w))
  {
  }

  lemma Ordered(a: real, b: real, d: real)
    requires a <= b && 0.0 <= d
    ensures a * d <= b * d
  {
  }

  /** Stages past the one n is in hold none of [0, n]. */
  lemma NoWidthBeyond(bounds: seq<real>, n: real, i: nat)
    requires Table(bounds, bounds) && i <= |bounds|
    ensures Active(bounds, n) < i ==> Width(bounds, i, n) == 0.0
  {
  }

  /** The rise of a line of the given slope between x and y. */
  ghost function Rise(slope: real, x: real, y: real): real { Strip(slope, y - x) }

  /** Between two notionals the requirement grows at a rate between lo and hi, if every stage crossed does. */
  lemma RequirementSlope(bounds: seq<real>, rates: seq<real>, x: real, y: real, lo: real, hi: real)
    requires Table(bounds, rates) && 0.0 <= x <= y
    requires forall i :: 0 <= i <= Active(bounds, y) ==> lo <= RateAfter(rates, i) <= hi
    ensures Rise(lo, x, y) <= Requirement(bounds, rates, y) - Requirement(bounds, rates, x) <= Rise(hi, x, y)
  {
    hide Area, Requirement, TotalWidth, Strip;
    var k := Active(bounds, y);
    forall i | 0 <= i < |bounds| + 1 && Width(bounds, i, x) < Width(bounds, i, y)
      ensures lo <= RateAfter(rates, i) <= hi
    {
      NoWidthBeyond(bounds, y, i);
    }
    AreaSlope(bounds, rates, |bounds| + 1, x, y, lo, hi);
    assert TotalWidth(bounds, |bounds| + 1, y) - TotalWidth(bounds, |bounds| + 1, x) == y - x by {
      WidthsPartition(bounds, x);
      WidthsPartition(bounds, y);
    }
    RequirementIsArea(bounds, rates, x);
    RequirementIsArea(bounds, rates, y);
  }

  ghost function Lowest(rates: seq<real>, k: nat): real
    requires 0 < |rates| && k <= |rates|
  {
    if k == 0 then rates[0]
    else if RateAfter(rates, k) < Lowest(rates, k - 1) then RateAfter(rates, k) else Lowest(rates, k - 1)
  }

  /** The highest rate among the stages up to and including stage k. */
  ghost function Highest(rates: seq<real>, k: nat): real
    requires 0 < |rates| && k <= |rates|
  {
    if k == 0 then rates[0]
    else if RateAfter(rates, k) > Highest(rates, k - 1) then RateAfter(rates, k) else Highest(rates, k - 1)
  }

  lemma {:induction false} RatesWithin(rates: seq<real>, k: nat, i: nat)
    requires 0 < |rates| && i <= k <= |rates|
    ensures Lowest(rates, k) <= RateAfter(rates, i) <= Highest(rates, k)
  {
    if i < k { RatesWithin(rates, k - 1, i); }
  }

  lemma {:induction false} LowestPositive(rates: seq<real>, k: nat)
    requires 0 < |rates| && k <= |rates|
    requires forall i :: 0 <= i < |rates| ==> rates[i] > 0.0
    ensures 0.0 < Lowest(rates, k) <= Highest(rates, k)
  {
    if k > 0 { LowestPositive(rates, k - 1); }
  }

  /**
   * For any table of positive rates the requirement starts at zero, is strictly
   * increasing, and is continuous: a step of d moves it by at most the highest
   * rate times d. Nothing is assumed about how the rates vary between tiers.
   */
  lemma RequirementMonotoneContinuous(bounds: seq<real>, rates: seq<real>, x: real, y: real)
    requires Table(bounds, rates) && 0.0 <= x < y
    requires forall i :: 0 <= i < |rates| ==> rates[i] > 0.0
    ensures Requirement(bounds, rates, 0.0) == 0.0
    ensures 0.0 < Requirement(bounds, rates, y) - Requirement(bounds, rates, x)
              <= Rise(Highest(rates, Active(bounds, y)), x, y)
  {
    hide Requirement;
    var k := Active(bounds, y);
    forall i | 0 <= i <= k
      ensures Lowest(rates, k) <= RateAfter(rates, i) <= Highest(rates, k)
    {
      RatesWithin(rates, k, i);
    }
    LowestPositive(rates, k);
    hide Lowest, Highest;
    hide Rise;
    var lo, hi := Lowest(rates, k), Highest(rates, k);
    RequirementSlope(bounds, rates, x, y, lo, hi);
    PositiveGap(lo, x, y);
    RequirementOfNothing(bounds, rates);
  }

  lemma PositiveGap(a: real, x: real, y: real)
    requires a > 0.0 && x < y
    ensures a * (y - x) > 0.0 && Rise(a, x, y) > 0.0
  {
  }

  lemma RequirementOfNothing(bounds: seq<real>, rates: seq<real>)
    requires Table(bounds, rates)
    ensures Requirement(bounds, rates, 0.0) == 0.0
  {
    RequirementIsArea(bounds, rates, 0.0);
    NoArea(bounds, rates, |bounds| + 1);
  }

  lemma Positive(a: real, b: real)
    requires a > 0.0 && b > 0.0
    ensures a * b > 0.0
  {
  }

  lemma {:induction false} NoArea(bounds: seq<real>, rates: seq<real>, j: nat)
    requires Table(bounds, rates) && j <= |bounds| + 1
    ensures Area(bounds, rates, j, 0.0) == 0.0
  {
    if j > 0 {
      NoArea(bounds, rates, j - 1);
      assert Width(bounds, j - 1, 0.0) == 0.0;
    }
  }

  /** A table whose every rate is at most f times another's requires at most f times as much. */
  lemma RequirementDominated(bounds: seq<real>, rates: seq<real>, other: seq<real>, f: real, n: real)
    requires Table(bounds, rates) && Table(bounds, other) && 0.0 <= n
    requires forall i :: 0 <= i < |rates| ==> rates[i] <= f * other[i]
    ensures Requirement(bounds, rates, n) <= f * Requirement(bounds, other, n)
  {
    RequirementIsArea(bounds, rates, n);
    RequirementIsArea(bounds, other, n);
    AreaDominated(bounds, rates, other, f, |bounds| + 1, n);
  }

  lemma {:induction false} AreaDominated(
    bounds: seq<real>, rates: seq<real>, other: seq<real>, f: real, j: nat, n: real)
    requires Table(bounds, rates) && Table(bounds, other) && 0.0 <= n && j <= |bounds| + 1
    requires forall i :: 0 <= i < |rates| ==> rates[i] <= f * other[i]
    ensures Area(bounds, rates, j, n) <= f * Area(bounds, other, j, n)
  {
    hide Width;
    if j > 0 {
      assert 0.0 <= Width(bounds, j - 1, n) by { WidthNonNegative(bounds, j - 1, n); }
      AreaDominated(bounds, rates, other, f, j - 1, n);
      DominatedStep(RateAfter(rates, j - 1), RateAfter(other, j - 1), Width(bounds, j - 1, n), f,
                    Area(bounds, rates, j - 1, n), Area(bounds, other, j - 1, n));
    }
  }

  lemma DominatedStep(r: real, o: real, w: real, f: real, a: real, b: real)
    requires r <= f * o && 0.0 <= w && a <= f * b
    ensures a + r * w <= f * (b + o * w)
  {
    Ordered(r, f * o, w);
    assert f * (b + o * w) == f * b + (f * o) * w;
  }

  // ------------------------------------------------- inversion

  /** What a notional costs at stage j: the line of that stage plus the fee. */
  function LineCost(bounds: seq<real>, rates: seq<real>, fee: real, j: nat, n: real): real
    requires 0 < |rates| == |bounds| && j <= |rates|
  {
    CostAt(n, RateAfter(rates, j), Deduction(bounds, rates, j), fee)
  }

  lemma StagesMeet(bounds: seq<real>, rates: seq<real>, fee: real, j: nat)
    requires 0 < |rates| == |bounds| && j < |rates|
    ensures LineCost(bounds, rates, fee, j, bounds[j]) == LineCost(bounds, rates, fee, j + 1, bounds[j])
  {
    LinesMeet(bounds, rates, j);
    hide RateAfter, Deduction;
  }

  lemma LineCostOrders(bounds: seq<real>, rates: seq<real>, fee: real, j: nat, x: real, y: real)
    requires 0 < |rates| == |bounds| && j <= |rates| && RateAfter(rates, j) + fee > 0.0
    ensures LineCost(bounds, rates, fee, j, x) <= LineCost(bounds, rates, fee, j, y) <==> x <= y
  {
    CostOrders(x, y, RateAfter(rates, j), Deduction(bounds, rates, j), fee);
    hide CostAt, RateAfter, Deduction;
  }

  lemma CostOrders(x: real, y: real, rate: real, deduction: real, fee: real)
    requires rate + fee > 0.0
    ensures CostAt(x, rate, deduction, fee) <= CostAt(y, rate, deduction, fee) <==> x <= y
  {
    var s := rate + fee;
    assert CostAt(x, rate, deduction, fee) == x * s - deduction && CostAt(y, rate, deduction, fee) == y * s - deduction;
    hide CostAt;
    if x <= y {
      Ordered(x, y, s);
    } else {
      PositiveGap(s, y, x);
      assert s * (x - y) == x * s - y * s;
    }
  }

  /** The stage at which `target` is met is the stage its notional is in. */
  lemma SpendStage(bounds: seq<real>, rates: seq<real>, fee: real, target: real, k: nat, n: real)
    requires Table(bounds, rates) && k <= |bounds| && 0.0 <= fee
    requires forall i :: 0 <= i < |rates| ==> rates[i] > 0.0
    requires k > 0 ==> LineCost(bounds, rates, fee, k, bounds[k - 1]) <= target
    requires k < |bounds| ==> target < LineCost(bounds, rates, fee, k, bounds[k])
    requires LineCost(bounds, rates, fee, k, n) == target
    ensures Active(bounds, n) == k
    ensures Requirement(bounds, rates, n) + n * fee == target
  {
    if k > 0 {
      LineCostOrders(bounds, rates, fee, k, bounds[k - 1], n);
      forall i | 0 <= i < k
        ensures bounds[i] <= n
      {
        assert bounds[i] <= bounds[k - 1];
      }
    }
    if k < |bounds| {
      LineCostOrders(bounds, rates, fee, k, bounds[k], n);
    }
    ActiveIs(bounds, n, k, 0);
  }

  lemma {:induction false} ActiveIs(bounds: seq<real>, n: real, k: nat, i: nat)
    requires i <= k <= |bounds|
    requires forall j :: i <= j < k ==> bounds[j] <= n
    requires k < |bounds| ==> n < bounds[k]
    ensures ActiveFrom(bounds, n, i) == k
    decreases k - i
  {
    if i < k { ActiveIs(bounds, n, k, i + 1); }
  }

  // ------------------------------------------------- tier by tier

  /** How much of [0, n] is charged at tier i: from its bound, or from zero for the first, up to the next bound. */
  function Share(bounds: seq<real>, i: nat, n: real): real
    requires i < |bounds|
  {
    var from := if i == 0 then 0.0 else bounds[i];
    var to := if i + 1 < |bounds| && bounds[i + 1] < n then bounds[i + 1] else n;
    if to < from then 0.0 else to - from
  }

  function Part(share: real, divisor: real): real
    requires divisor != 0.0
  {
    share / divisor
  }

  /** Each of the first k tiers' shares over that tier's divisor, added up. */
  ghost function Shares(bounds: seq<real>, divisors: seq<real>, k: nat, n: real): real
    requires k <= |bounds| == |divisors| && forall i :: 0 <= i < |divisors| ==> divisors[i] > 0.0
  {
    if k == 0 then 0.0 else Shares(bounds, divisors, k - 1, n) + Part(Share(bounds, k - 1, n), divisors[k - 1])
  }

  lemma StripIsPart(rate: real, divisor: real, width: real)
    requires divisor > 0.0 && rate * divisor == 1.0
    ensures Strip(rate, width) == Part(width, divisor)
  {
    var x, y := Strip(rate, width), Part(width, divisor);
    assert x * divisor == width * (rate * divisor) == width;
    assert y * divisor == width;
    assert (x - y) * divisor == 0.0;
  }

  /** The first two stages are the first tier's share. */
  lemma FirstShare(bounds: seq<real>, rates: seq<real>, n: real)
    requires Table(bounds, rates) && 0.0 <= n
    ensures Width(bounds, 0, n) + Width(bounds, 1, n) == Share(bounds, 0, n)
  {
  }

  lemma {:induction false} AreaIsShares(bounds: seq<real>, rates: seq<real>, divisors: seq<real>, k: nat, n: real)
    requires Table(bounds, rates) && |divisors| == |rates| && 0 < k <= |bounds| && 0.0 <= n
    requires forall i :: 0 <= i < |rates| ==> divisors[i] > 0.0 && rates[i] * divisors[i] == 1.0
    ensures Area(bounds, rates, k + 1, n) == Shares(bounds, divisors, k, n)
  {
    hide Strip, Part, Width, Share;
    if k == 1 {
      FirstShare(bounds, rates, n);
      SameRate(rates[0], Width(bounds, 0, n), Width(bounds, 1, n));
      StripIsPart(rates[0], divisors[0], Share(bounds, 0, n));
      assert Area(bounds, rates, 1, n) == Area(bounds, rates, 0, n) + Strip(rates[0], Width(bounds, 0, n));
      assert Shares(bounds, divisors, 0, n) == 0.0;
    } else {
      AreaIsShares(bounds, rates, divisors, k - 1, n);
      LaterShare(bounds, k, n);
      StripIsPart(rates[k - 1], divisors[k - 1], Share(bounds, k - 1, n));
    }
  }

  lemma SameRate(rate: real, a: real, b: real)
    ensures Strip(rate, a) + Strip(rate, b) == Strip(rate, a + b)
  {
  }

  lemma LaterShare(bounds: seq<real>, k: nat, n: real)
    requires 1 < k <= |bounds|
    ensures Width(bounds, k, n) == Share(bounds, k - 1, n)
  {
  }

  /** The requirement is each tier's share over its divisor, added up: rates and deductions are a way to compute it. */
  lemma RequirementIsShares(bounds: seq<real>, rates: seq<real>, divisors: seq<real>, n: real)
    requires Table(bounds, rates) && |divisors| == |rates| && 0.0 <= n
    requires forall i :: 0 <= i < |rates| ==> divisors[i] > 0.0 && rates[i] * divisors[i] == 1.0
    ensures Requirement(bounds, rates, n) == Shares(bounds, divisors, |bounds|, n)
  {
    hide Requirement, Area, Shares;
    RequirementIsArea(bounds, rates, n);
    AreaIsShares(bounds, rates, divisors, |bounds|, n);
  }
}
