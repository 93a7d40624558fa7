/**
 * ComputeOrderBreakdown of orderbreakdown.go over exact reals: a spend, a
 * notional or a token count is turned into a tick-sized order with its margin,
 * fee and liquidation estimate. Amounts arrive as numbers; texts that do not
 * parse arrive as zero.
 */
module OrderBreakdown {
  import opened Text
  import opened MarginTiers
  import Decimals

  datatype PositionSide = Long | Short

  datatype MarginTier = MarginTier(lowerBound: real, maxLeverage: int)

  datatype ExistingPosition = ExistingPosition(side: PositionSide, size: real, entryPrice: real)

  datatype AccountContext = AccountContext(equity: real, otherMaintenanceMargin: real, existing: Option<ExistingPosition>)

  datatype Order = Order(
    amount: real,
    amountType: string,
    leverage: int,
    feeRate: real,
    price: real,
    side: PositionSide,
    szDecimals: int,
    tiers: seq<MarginTier>,
    maintenanceRate: Option<real>,
    account: Option<AccountContext>)

  datatype Breakdown = Breakdown(
    tokens: real,
    notional: real,
    marginRequired: real,
    estimatedFee: real,
    totalSpend: real,
    effectiveLeverage: Option<real>,
    effectiveMaintenanceRate: Option<real>,
    nextTierThreshold: Option<real>,
    liquidationPrice: Option<real>)

  const ZERO_BREAKDOWN := Breakdown(0.0, 0.0, 0.0, 0.0, 0.0, None, None, None, None)

  datatype Merged = Merged(side: PositionSide, size: real, entry: real)

  // ------------------------------------------------- tier tables

  /** What the SDK expects of a margin table: sorted non-negative bounds, leverages of at least one. */
  ghost predicate ValidTiers(tiers: seq<MarginTier>) {
    && (forall i :: 0 <= i < |tiers| ==> 0.0 <= tiers[i].lowerBound && 1 <= tiers[i].maxLeverage)
    && (forall i, j :: 0 <= i < j < |tiers| ==> tiers[i].lowerBound <= tiers[j].lowerBound)
  }

  function Bounds(tiers: seq<MarginTier>): seq<real> {
    seq(|tiers|, i requires 0 <= i < |tiers| => tiers[i].lowerBound)
  }

  /** The initial-margin rate of a tier: one over the leverage chosen, capped by the tier's. */
  function InitialRate(leverage: int, tier: MarginTier): real
    requires leverage > 0 && tier.maxLeverage > 0
  {
    1.0 / (if tier.maxLeverage < leverage then tier.maxLeverage else leverage) as real
  }

  function MaintenanceRate(tier: MarginTier): real
    requires tier.maxLeverage > 0
  {
    0.5 / tier.maxLeverage as real
  }

  function InitialRates(leverage: int, tiers: seq<MarginTier>): seq<real>
    requires leverage > 0 && forall i :: 0 <= i < |tiers| ==> tiers[i].maxLeverage > 0
  {
    seq(|tiers|, i requires 0 <= i < |tiers| => InitialRate(leverage, tiers[i]))
  }

  function MaintenanceRates(tiers: seq<MarginTier>): seq<real>
    requires forall i :: 0 <= i < |tiers| ==> tiers[i].maxLeverage > 0
  {
    seq(|tiers|, i requires 0 <= i < |tiers| => MaintenanceRate(tiers[i]))
  }

  lemma TierRates(leverage: int, tiers: seq<MarginTier>)
    requires leverage > 0 && ValidTiers(tiers) && tiers != []
    ensures Table(Bounds(tiers), InitialRates(leverage, tiers))
    ensures Table(Bounds(tiers), MaintenanceRates(tiers))
    ensures forall i :: 0 <= i < |tiers| ==> InitialRates(leverage, tiers)[i] > 0.0
    ensures forall i :: 0 <= i < |tiers| ==> MaintenanceRates(tiers)[i] <= 0.5 * InitialRates(leverage, tiers)[i]
  {
    forall i | 0 <= i < |tiers|
      ensures InitialRate(leverage, tiers[i]) > 0.0
      ensures MaintenanceRate(tiers[i]) <= 0.5 * InitialRate(leverage, tiers[i])
    {
      Reciprocals(if tiers[i].maxLeverage < leverage then tiers[i].maxLeverage else leverage, tiers[i].maxLeverage);
    }
  }

  lemma Inverse(x: real)
    requires x > 0.0
    ensures 1.0 / x > 0.0
  {
  }

  lemma InverseOrders(x: real, y: real)
    requires 0.0 < x <= y
    ensures 1.0 / y <= 1.0 / x
  {
  }

  lemma Reciprocals(a: int, b: int)
    requires 0 < a <= b
    ensures 1.0 / a as real > 0.0 && 0.5 / b as real <= 0.5 * (1.0 / a as real)
  {
    Inverse(a as real);
    InverseOrders(a as real, b as real);
    assert 0.5 / b as real == 0.5 * (1.0 / b as real);
  }

  /** Initial margin of a notional, with or without a tier table. */
  function Margin(o: Order, n: real): real
    requires o.leverage > 0 && forall i :: 0 <= i < |o.tiers| ==> o.tiers[i].maxLeverage > 0
  {
    if o.tiers == [] then n / o.leverage as real
    else Requirement(Bounds(o.tiers), InitialRates(o.leverage, o.tiers), n)
  }

  /** The highest initial-margin rate in force anywhere up to notional n. */
  ghost function HighestRate(o: Order, n: real): real
    requires o.leverage > 0 && forall i :: 0 <= i < |o.tiers| ==> o.tiers[i].maxLeverage > 0
  {
    if o.tiers == [] then 1.0 / o.leverage as real
    else Highest(InitialRates(o.leverage, o.tiers), Active(Bounds(o.tiers), n))
  }

  /** Maintenance margin is at most half the initial margin at every notional, whatever leverage was chosen. */
  lemma MaintenanceAtMostHalf(leverage: int, tiers: seq<MarginTier>, n: real)
    requires leverage > 0 && ValidTiers(tiers) && tiers != [] && 0.0 <= n
    ensures Requirement(Bounds(tiers), MaintenanceRates(tiers), n)
         <= 0.5 * Requirement(Bounds(tiers), InitialRates(leverage, tiers), n)
  {
    TierRates(leverage, tiers);
    RequirementDominated(Bounds(tiers), MaintenanceRates(tiers), InitialRates(leverage, tiers), 0.5, n);
  }

  /** Between two notionals the margin grows, by at most the highest rate in force. */
  lemma MarginSlope(o: Order, x: real, y: real)
    requires o.leverage > 0 && ValidTiers(o.tiers) && 0.0 <= x < y
    ensures 0.0 < Margin(o, y) - Margin(o, x) <= Rise(HighestRate(o, y), x, y)
  {
    hide Requirement, Highest, Table, Rise;
    if o.tiers == [] {
      FlatSlope(o.leverage as real, x, y);
    } else {
      TierRates(o.leverage, o.tiers);
      RequirementMonotoneContinuous(Bounds(o.tiers), InitialRates(o.leverage, o.tiers), x, y);
    }
  }

  lemma FlatSlope(l: real, x: real, y: real)
    requires l > 0.0 && x < y
    ensures 0.0 < y / l - x / l <= Rise(1.0 / l, x, y)
  {
  }

  // ------------------------------------------------- the loops

  /** The spend loop: the notional whose margin plus fee is exactly `target`. */
  method NotionalForSpend(tiers: seq<MarginTier>, leverage: int, feeRate: real, target: real) returns (notional: real)
    requires tiers != [] && ValidTiers(tiers) && leverage > 0 && 0.0 <= feeRate && 0.0 < target
    ensures Requirement(Bounds(tiers), InitialRates(leverage, tiers), notional) + notional * feeRate == target
    ensures 0.0 < notional
  {
    hide Requirement, InitialRate, Active, Deduct, CostAt;
    ghost var bounds, rates := Bounds(tiers), InitialRates(leverage, tiers);
    TierRates(leverage, tiers);
    var deduction := 0.0;
    var activeRate := InitialRate(leverage, tiers[0]);
    var prevRate, prevDeduction := activeRate, 0.0;
    var i := 0;
    while i < |tiers|
      invariant i <= |tiers|
      invariant activeRate == prevRate == RateAfter(rates, i)
      invariant deduction == prevDeduction == Deduction(bounds, rates, i)
      invariant i > 0 ==> LineCost(bounds, rates, feeRate, i, bounds[i - 1]) <= target
    {
      var lowerBound := tiers[i].lowerBound;
      var rate := InitialRate(leverage, tiers[i]);
      var nextDeduction := Deduct(prevDeduction, lowerBound, rate, prevRate);
      var spendAtBound := CostAt(lowerBound, rate, nextDeduction, feeRate);
      assert spendAtBound == LineCost(bounds, rates, feeRate, i + 1, bounds[i]);
      if target < spendAtBound {
        StagesMeet(bounds, rates, feeRate, i);
        break;
      }
      activeRate, prevRate := rate, rate;
      prevDeduction, deduction := nextDeduction, nextDeduction;
      i := i + 1;
    }
    notional := (target + deduction) / (activeRate + feeRate);
    SpendPoint(bounds, rates, feeRate, target, i, notional);
    SpendStage(bounds, rates, feeRate, target, i, notional);
    SpendPositive(bounds, rates, feeRate, target, i, notional);
  }

  lemma SpendPoint(bounds: seq<real>, rates: seq<real>, fee: real, target: real, k: nat, n: real)
    requires Table(bounds, rates) && k <= |bounds| && RateAfter(rates, k) + fee > 0.0
    requires n == (target + Deduction(bounds, rates, k)) / (RateAfter(rates, k) + fee)
    ensures LineCost(bounds, rates, fee, k, n) == target
  {
    hide RateAfter, Deduction;
    Solve(target, Deduction(bounds, rates, k), RateAfter(rates, k), fee, n);
  }

  lemma Solve(target: real, deduction: real, rate: real, fee: real, n: real)
    requires rate + fee > 0.0 && n == (target + deduction) / (rate + fee)
    ensures CostAt(n, rate, deduction, fee) == target
  {
    assert n * (rate + fee) == target + deduction;
  }

  lemma SpendPositive(bounds: seq<real>, rates: seq<real>, fee: real, target: real, k: nat, n: real)
    requires Table(bounds, rates) && k <= |bounds| && 0.0 < target && 0.0 <= fee
    requires forall i :: 0 <= i < |rates| ==> rates[i] > 0.0
    requires LineCost(bounds, rates, fee, k, n) == target
    requires k > 0 ==> LineCost(bounds, rates, fee, k, bounds[k - 1]) <= target
    ensures 0.0 < n
  {
    if k > 0 {
      LineCostOrders(bounds, rates, fee, k, bounds[k - 1], n);
      if n == 0.0 {
        StartOfTable(bounds, rates, fee, k);
      }
    } else {
      LineCostOrders(bounds, rates, fee, 0, n, 0.0);
    }
  }

  /** Tiers that start at zero cost nothing at zero. */
  lemma {:induction false} StartOfTable(bounds: seq<real>, rates: seq<real>, fee: real, k: nat)
    requires Table(bounds, rates) && k <= |bounds|
    requires forall i :: 0 <= i < k ==> bounds[i] <= 0.0
    ensures Deduction(bounds, rates, k) == 0.0 && LineCost(bounds, rates, fee, k, 0.0) == 0.0
  {
    if k > 0 {
      StartOfTable(bounds, rates, fee, k - 1);
      assert bounds[k - 1] == 0.0;
    }
  }

  /** The lowest bound above a notional, if there is one. */
  ghost predicate IsNextThreshold(tiers: seq<MarginTier>, n: real, next: Option<real>) {
    && (next.Some? ==> n < next.value && next.value in Bounds(tiers))
    && (forall i :: 0 <= i < |tiers| && n < tiers[i].lowerBound ==> next.Some? && next.value <= tiers[i].lowerBound)
  }

  /** The margin loop, and the bound it stopped at. */
  method MarginLoop(tiers: seq<MarginTier>, leverage: int, n: real) returns (margin: real, next: Option<real>)
    requires tiers != [] && ValidTiers(tiers) && leverage > 0
    ensures margin == Requirement(Bounds(tiers), InitialRates(leverage, tiers), n)
    ensures IsNextThreshold(tiers, n, next)
  {
    hide InitialRate, Deduct, LineAt;
    ghost var bounds, rates := Bounds(tiers), InitialRates(leverage, tiers);
    var deduction := 0.0;
    var activeRate := InitialRate(leverage, tiers[0]);
    var prevRate, prevDeduction := activeRate, 0.0;
    next := None;
    var i := 0;
    while i < |tiers|
      invariant i <= |tiers|
      invariant activeRate == prevRate == RateAfter(rates, i)
      invariant deduction == prevDeduction == Deduction(bounds, rates, i)
      invariant forall j :: 0 <= j < i ==> bounds[j] <= n
    {
      var lowerBound := tiers[i].lowerBound;
      var rate := InitialRate(leverage, tiers[i]);
      if n < lowerBound {
        next := Some(lowerBound);
        assert bounds[i] in bounds;
        break;
      }
      deduction := Deduct(prevDeduction, lowerBound, rate, prevRate);
      activeRate, prevRate, prevDeduction := rate, rate, deduction;
      i := i + 1;
    }
    margin := LineAt(n, activeRate, deduction);
    ActiveIs(bounds, n, i, 0);
  }

  /** The maintenance loop. */
  method MaintenanceLoop(tiers: seq<MarginTier>, n: real) returns (required: real)
    requires tiers != [] && ValidTiers(tiers)
    ensures required == Requirement(Bounds(tiers), MaintenanceRates(tiers), n)
  {
    hide MaintenanceRate, Deduct, LineAt;
    ghost var bounds, rates := Bounds(tiers), MaintenanceRates(tiers);
    var deduction := 0.0;
    var activeRate := MaintenanceRate(tiers[0]);
    var prevRate, prevDeduction := activeRate, 0.0;
    var i := 0;
    while i < |tiers|
      invariant i <= |tiers|
      invariant activeRate == prevRate == RateAfter(rates, i)
      invariant deduction == prevDeduction == Deduction(bounds, rates, i)
      invariant forall j :: 0 <= j < i ==> bounds[j] <= n
    {
      var lowerBound := tiers[i].lowerBound;
      var rate := MaintenanceRate(tiers[i]);
      if n < lowerBound {
        break;
      }
      deduction := Deduct(prevDeduction, lowerBound, rate, prevRate);
      activeRate, prevRate, prevDeduction := rate, rate, deduction;
      i := i + 1;
    }
    required := LineAt(n, activeRate, deduction);
    ActiveIs(bounds, n, i, 0);
  }

  // ------------------------------------------------- merging and liquidation

  /** The quantity-weighted price of q1 at p1 and q2 at p2. */
  function Weighted(q1: real, p1: real, q2: real, p2: real): real
    requires q1 + q2 != 0.0
  {
    (q1 * p1 + q2 * p2) / (q1 + q2)
  }

  /** mergeOrderWithPosition: None when there is nothing to hold afterwards. */
  function MergeOrder(
    newSide: PositionSide, newSize: real, fillPrice: real, existing: Option<ExistingPosition>): Option<Merged> {
    if newSize <= 0.0 || fillPrice <= 0.0 then None
    else if existing.None? || existing.value.size <= 0.0 || existing.value.entryPrice <= 0.0 then
      Some(Merged(newSide, newSize, fillPrice))
    else
      var ex := existing.value;
      if ex.side == newSide then
        Some(Merged(newSide, ex.size + newSize, Weighted(ex.size, ex.entryPrice, newSize, fillPrice)))
      else if newSize < ex.size then Some(Merged(ex.side, ex.size - newSize, ex.entryPrice))
      else if newSize == ex.size then None
      else Some(Merged(newSide, newSize - ex.size, fillPrice))
  }

  function FlatMaintenance(rate: real, notional: real): real { rate * notional }

  function MergedNotional(m: Merged): real { m.size * m.entry }

  /** The maintenance rate a position is held to, given its maintenance margin at entry. */
  function RateAtEntry(m: Merged, mm: real): real {
    if MergedNotional(m) > 0.0 then mm / MergedNotional(m) else 0.0
  }

  /** What a position gains when the mark moves from `price` to p. */
  function GainTo(m: Merged, price: real, p: real): real {
    if m.side == Long then m.size * (p - price) else m.size * (price - p)
  }

  /**
   * Margin left at mark p: equity, with the position's gain since `price`,
   * less the other positions' maintenance and this one's, which is its rate
   * on its value at the mark.
   */
  function MarkSlack(m: Merged, rate: real, equity: real, other: real, price: real, p: real): real {
    equity + GainTo(m, price, p) - other - rate * (m.size * p)
  }

  /** What taking own maintenance at the entry price rather than at the mark leaves out. */
  function EntryError(m: Merged, rate: real, price: real): real { rate * (m.size * (m.entry - price)) }

  /** How fast margin is lost per unit of price. */
  function Sensitivity(m: Merged, rate: real): real { if m.side == Long then 1.0 - rate else 1.0 + rate }

  /** How far the mark moves before `avail` is lost. */
  function LossDistance(avail: real, size: real, sensitivity: real): real
    requires size * sensitivity != 0.0
  {
    avail / (size * sensitivity)
  }

  /** The liquidation estimate of a merged position whose maintenance margin is mm. */
  function Liquidation(price: real, m: Merged, mm: real, avail: real): Option<real>
    requires m.size > 0.0
  {
    var sensitivity := Sensitivity(m, RateAtEntry(m, mm));
    if avail <= 0.0 || sensitivity <= 0.0 then None
    else
      assert m.size * sensitivity > 0.0 by { Positive(m.size, sensitivity); }
      var perUnit := LossDistance(avail, m.size, sensitivity);
      var liq := if m.side == Long then price - perUnit else price + perUnit;
      if liq > 0.0 then Some(liq) else None
  }

  /**
   * What an estimate means. There is one exactly when margin is left at the
   * entry, is lost as the mark turns against the position, and runs out at a
   * positive price. It lies on the losing side, and the margin left there is
   * exactly the entry error: zero if and only if the position is carried at
   * the current price or needs no maintenance.
   */
  ghost predicate EstimateMeans(m: Merged, mm: real, equity: real, other: real, price: real, liq: Option<real>) {
    var rate := RateAtEntry(m, mm);
    && (liq.Some? <==>
          && equity - other > mm && Sensitivity(m, rate) > 0.0
          && (m.side == Long ==> MarkSlack(m, rate, equity, other, price, 0.0) < EntryError(m, rate, price)))
    && (liq.Some? ==>
          && liq.value > 0.0 && (if m.side == Long then liq.value < price else price < liq.value)
          && MarkSlack(m, rate, equity, other, price, liq.value) == EntryError(m, rate, price)
          && (MarkSlack(m, rate, equity, other, price, liq.value) == 0.0 <==> rate == 0.0 || m.entry == price))
  }

  /** Slack is a straight line through the margin available, up to the entry error. */
  lemma SlackLine(m: Merged, mm: real, equity: real, other: real, price: real, p: real)
    requires m.size > 0.0 && m.entry > 0.0
    ensures var rate := RateAtEntry(m, mm);
            var toward := if m.side == Long then p - price else price - p;
            MarkSlack(m, rate, equity, other, price, p)
              == (equity - (other + mm)) + (m.size * Sensitivity(m, rate)) * toward + EntryError(m, rate, price)
  {
    var rate := RateAtEntry(m, mm);
    Positive(m.size, m.entry);
    assert rate * (m.size * m.entry) == mm;
    if m.side == Long {
      LongLine(m.size, rate, m.entry, price, p);
    } else {
      ShortLine(m.size, rate, m.entry, price, p);
    }
  }

  lemma LongLine(size: real, rate: real, entry: real, price: real, p: real)
    ensures size * (p - price) - rate * (size * p)
         == (size * (1.0 - rate)) * (p - price) + rate * (size * (entry - price)) - rate * (size * entry)
  {
  }

  lemma ShortLine(size: real, rate: real, entry: real, price: real, p: real)
    ensures size * (price - p) - rate * (size * p)
         == (size * (1.0 + rate)) * (price - p) + rate * (size * (entry - price)) - rate * (size * entry)
  {
  }

  lemma EntryErrorZeroIff(m: Merged, rate: real, price: real)
    requires m.size > 0.0
    ensures EntryError(m, rate, price) == 0.0 <==> rate == 0.0 || m.entry == price
  {
    if m.entry != price {
      assert m.size * (m.entry - price) != 0.0;
    }
  }

  /** The point a line of positive slope loses `avail` at. */
  lemma LosesAt(avail: real, k: real, d: real)
    requires k > 0.0 && d == avail / k
    ensures avail + k * -d == 0.0 && (avail > 0.0 <==> d > 0.0)
  {
    assert d * k == avail;
    if d > 0.0 { Positive(d, k); } else { Ordered(d, 0.0, k); }
  }

  lemma LiquidationIsBreakEven(price: real, m: Merged, mm: real, equity: real, other: real)
    requires m.size > 0.0 && m.entry > 0.0 && price > 0.0
    ensures EstimateMeans(m, mm, equity, other, price, Liquidation(price, m, mm, equity - (other + mm)))
  {
    hide MarkSlack, EntryError, RateAtEntry, Sensitivity, LossDistance;
    var rate, avail := RateAtEntry(m, mm), equity - (other + mm);
    var s := Sensitivity(m, rate);
    EntryErrorZeroIff(m, rate, price);
    if avail > 0.0 && s > 0.0 {
      LossPoint(m, mm, equity, other, price, avail, s);
    }
  }

  /** Where the margin of a position runs out, and whether that is above zero. */
  lemma LossPoint(m: Merged, mm: real, equity: real, other: real, price: real, avail: real, s: real)
    requires m.size > 0.0 && m.entry > 0.0
    requires avail == equity - (other + mm) > 0.0 && s == Sensitivity(m, RateAtEntry(m, mm)) > 0.0
    ensures m.size * s > 0.0
    ensures var rate, d := RateAtEntry(m, mm), LossDistance(avail, m.size, s);
            var p := if m.side == Long then price - d else price + d;
            && d > 0.0
            && MarkSlack(m, rate, equity, other, price, p) == EntryError(m, rate, price)
            && (m.side == Long ==>
                  (price - d > 0.0 <==> MarkSlack(m, rate, equity, other, price, 0.0) < EntryError(m, rate, price)))
  {
    Positive(m.size, s);
    var k := m.size * s;
    var d := LossDistance(avail, m.size, s);
    LosesAt(avail, k, d);
    SlackLine(m, mm, equity, other, price, 0.0);
    SlackLine(m, mm, equity, other, price, if m.side == Long then price - d else price + d);
    ReachesZeroIff(avail, k, price, d);
    hide MarkSlack, EntryError, RateAtEntry, Sensitivity, LossDistance;
  }

  /** A long loses all of it above zero exactly when nothing would be left at zero. */
  lemma ReachesZeroIff(avail: real, k: real, price: real, d: real)
    requires k > 0.0 && avail + k * -d == 0.0
    ensures price - d > 0.0 <==> avail + k * (0.0 - price) < 0.0
  {
    assert avail + k * (0.0 - price) == k * (d - price);
    if d < price { PositiveGap(k, d, price); } else { Ordered(0.0, d - price, k); }
  }

  /** The position an order leaves in the account, when a maintenance rule and an account are given. */
  function Held(o: Order, tokens: real): Option<Merged> {
    if o.account.None? || (o.maintenanceRate.None? && o.tiers == []) then None
    else MergeOrder(o.side, tokens, o.price, o.account.value.existing)
  }

  /** Maintenance of a notional: the tier table's, or the flat rate's. */
  function MaintenanceOf(o: Order, notional: real): real
    requires forall i :: 0 <= i < |o.tiers| ==> o.tiers[i].maxLeverage > 0
    requires o.maintenanceRate.Some? || o.tiers != []
  {
    if o.tiers != [] then Requirement(Bounds(o.tiers), MaintenanceRates(o.tiers), notional)
    else FlatMaintenance(o.maintenanceRate.value, notional)
  }

  /**
   * The estimate of an order: none when nothing is held afterwards, otherwise what
   * EstimateMeans says of the position held.
   */
  ghost predicate OrderEstimate(o: Order, tokens: real, fee: real, liq: Option<real>)
    requires forall i :: 0 <= i < |o.tiers| ==> o.tiers[i].maxLeverage > 0
  {
    var m := Held(o, tokens);
    if m.None? then liq.None?
    else
      var ctx, mm := o.account.value, MaintenanceOf(o, MergedNotional(m.value));
      EstimateMeans(m.value, mm, ctx.equity - fee, ctx.otherMaintenanceMargin, o.price, liq)
  }

  lemma HeldIsPositive(o: Order, tokens: real)
    ensures Held(o, tokens).Some? ==> Held(o, tokens).value.size > 0.0 && Held(o, tokens).value.entry > 0.0 && o.price > 0.0
  {
    if Held(o, tokens).Some? && o.account.value.existing.Some? {
      var ex := o.account.value.existing.value;
      if ex.size > 0.0 && ex.entryPrice > 0.0 && tokens > 0.0 {
        WeightedPositive(ex.size, ex.entryPrice, tokens, o.price);
      }
    }
  }

  lemma WeightedPositive(q1: real, p1: real, q2: real, p2: real)
    requires q1 > 0.0 && p1 > 0.0 && q2 > 0.0 && p2 > 0.0
    ensures Weighted(q1, p1, q2, p2) > 0.0
  {
    Positive(q1, p1);
    Positive(q2, p2);
    var w := Weighted(q1, p1, q2, p2);
    assert w * (q1 + q2) == q1 * p1 + q2 * p2;
    if w <= 0.0 { Ordered(w, 0.0, q1 + q2); }
  }

  /**
   * Reducing a position bought lower leaves it below maintenance at the
   * estimate: one of two bought at 50, sold at 100, with equity 20 and a rate
   * of one tenth.
   */
  lemma EstimateCanMissBreakEven(o: Order, liq: Option<real>)
    requires o.side == Short && o.price == 100.0 && o.tiers == [] && o.maintenanceRate == Some(0.1)
    requires o.account == Some(AccountContext(20.0, 0.0, Some(ExistingPosition(Long, 2.0, 50.0))))
    requires OrderEstimate(o, 1.0, 0.0, liq)
    ensures liq.Some? && Held(o, 1.0) == Some(Merged(Long, 1.0, 50.0))
    ensures MarkSlack(Merged(Long, 1.0, 50.0), 0.1, 20.0, 0.0, 100.0, liq.value) == -5.0
  {
    var m := Merged(Long, 1.0, 50.0);
    assert MaintenanceOf(o, MergedNotional(m)) == 5.0;
    assert RateAtEntry(m, 5.0) == 0.1;
    assert MarkSlack(m, 0.1, 20.0, 0.0, 100.0, 0.0) == -80.0 && EntryError(m, 0.1, 100.0) == -5.0;
  }

  // ------------------------------------------------- margin in terms of leverage

  /** The leverage a tier allows: the one chosen, or the tier's own if that is lower. */
  function Allowed(leverage: int, tier: MarginTier): int {
    if leverage <= tier.maxLeverage then leverage else tier.maxLeverage
  }

  function AllowedAll(leverage: int, tiers: seq<MarginTier>): (ls: seq<real>)
    ensures |ls| == |tiers| && forall i :: 0 <= i < |tiers| ==> ls[i] == Allowed(leverage, tiers[i]) as real
  {
    seq(|tiers|, i requires 0 <= i < |tiers| => Allowed(leverage, tiers[i]) as real)
  }

  function TwiceCaps(tiers: seq<MarginTier>): (ls: seq<real>)
    ensures |ls| == |tiers| && forall i :: 0 <= i < |tiers| ==> ls[i] == 2.0 * tiers[i].maxLeverage as real
  {
    seq(|tiers|, i requires 0 <= i < |tiers| => 2.0 * tiers[i].maxLeverage as real)
  }

  ghost predicate Times(a: real, b: real, c: real) { a * b == c }

  /** A notional below the second bound: only the first tier applies. */
  predicate InFirstTier(tiers: seq<MarginTier>, n: real) {
    tiers != [] && (|tiers| == 1 || n < tiers[1].lowerBound)
  }

  /** Every tier that applies to a notional allows the leverage chosen. */
  predicate Uncapped(leverage: int, tiers: seq<MarginTier>, n: real) {
    forall i :: 0 <= i < |tiers| && (i == 0 || tiers[i].lowerBound <= n) ==> leverage <= tiers[i].maxLeverage
  }

  /**
   * What margin a notional needs: never less than the notional over the
   * leverage chosen, and exactly that where no tier caps it; over the lower of
   * leverage and cap within the first tier; and in general each tier's share
   * over the leverage that tier allows, added up.
   */
  ghost predicate MarginReads(leverage: int, tiers: seq<MarginTier>, n: real, margin: real)
    requires leverage > 0 && ValidTiers(tiers)
  {
    && margin * leverage as real >= n
    && (Uncapped(leverage, tiers, n) ==> Times(margin, leverage as real, n))
    && (InFirstTier(tiers, n) ==> Times(margin, Allowed(leverage, tiers[0]) as real, n))
    && (tiers != [] ==> margin == Shares(Bounds(tiers), AllowedAll(leverage, tiers), |tiers|, n))
  }

  /** What maintenance a notional needs: each tier's share over twice its cap, so half the margin at that leverage. */
  ghost predicate MaintenanceReads(tiers: seq<MarginTier>, n: real, mm: real)
    requires ValidTiers(tiers)
  {
    && mm == Shares(Bounds(tiers), TwiceCaps(tiers), |tiers|, n)
    && (InFirstTier(tiers, n) ==> Times(mm, 2.0 * tiers[0].maxLeverage as real, n))
  }

  lemma RateReciprocal(leverage: int, tier: MarginTier)
    requires leverage > 0 && tier.maxLeverage > 0
    ensures Allowed(leverage, tier) > 0 && Times(InitialRate(leverage, tier), Allowed(leverage, tier) as real, 1.0)
    ensures Times(MaintenanceRate(tier), 2.0 * tier.maxLeverage as real, 1.0)
  {
    var l := Allowed(leverage, tier) as real;
    assert InitialRate(leverage, tier) == 1.0 / l;
    Reciprocal(l);
    HalfReciprocal(tier.maxLeverage as real);
  }

  lemma RatesAreReciprocal(leverage: int, tiers: seq<MarginTier>)
    requires leverage > 0 && ValidTiers(tiers)
    ensures forall i :: 0 <= i < |tiers| ==>
              AllowedAll(leverage, tiers)[i] > 0.0 && Times(InitialRates(leverage, tiers)[i], AllowedAll(leverage, tiers)[i], 1.0)
    ensures forall i :: 0 <= i < |tiers| ==>
              TwiceCaps(tiers)[i] > 0.0 && Times(MaintenanceRates(tiers)[i], TwiceCaps(tiers)[i], 1.0)
  {
    hide Times, InitialRate, MaintenanceRate, Allowed;
    forall i | 0 <= i < |tiers|
      ensures AllowedAll(leverage, tiers)[i] > 0.0 && Times(InitialRates(leverage, tiers)[i], AllowedAll(leverage, tiers)[i], 1.0)
      ensures TwiceCaps(tiers)[i] > 0.0 && Times(MaintenanceRates(tiers)[i], TwiceCaps(tiers)[i], 1.0)
    {
      RateReciprocal(leverage, tiers[i]);
    }
  }

  lemma Reciprocal(x: real)
    requires x > 0.0
    ensures Times(1.0 / x, x, 1.0)
  {
  }

  lemma HalfReciprocal(x: real)
    requires x > 0.0
    ensures Times(0.5 / x, 2.0 * x, 1.0)
  {
    assert (0.5 / x) * x == 0.5;
  }

  /** A requirement that grows from zero at no less than 1/l needs at least n/l. */
  lemma AtLeastOver(rate: real, l: real, n: real, margin: real)
    requires l > 0.0 && Times(rate, l, 1.0) && Rise(rate, 0.0, n) <= margin
    ensures margin * l >= n
  {
    assert Rise(rate, 0.0, n) * l == n * (rate * l);
    Ordered(Rise(rate, 0.0, n), margin, l);
  }

  lemma ExactlyOver(rate: real, l: real, n: real, margin: real)
    requires l > 0.0 && Times(rate, l, 1.0) && Rise(rate, 0.0, n) == margin
    ensures Times(margin, l, n)
  {
    assert Rise(rate, 0.0, n) * l == n * (rate * l);
  }

  lemma InitialRatesAbove(leverage: int, tiers: seq<MarginTier>, i: nat)
    requires leverage > 0 && ValidTiers(tiers) && i < |tiers|
    ensures 1.0 / leverage as real <= InitialRates(leverage, tiers)[i]
    ensures leverage <= tiers[i].maxLeverage ==> InitialRates(leverage, tiers)[i] == 1.0 / leverage as real
  {
    InverseOrders(Allowed(leverage, tiers[i]) as real, leverage as real);
  }

  /** What a table of rates requires when every stage up to n charges between lo and hi. */
  lemma RequirementBetween(bounds: seq<real>, rates: seq<real>, n: real, lo: real, hi: real)
    requires Table(bounds, rates) && 0.0 <= n
    requires forall i :: 0 <= i <= Active(bounds, n) ==> lo <= RateAfter(rates, i) <= hi
    ensures Rise(lo, 0.0, n) <= Requirement(bounds, rates, n) <= Rise(hi, 0.0, n)
  {
    hide Requirement, Rise;
    RequirementSlope(bounds, rates, 0.0, n, lo, hi);
    RequirementOfNothing(bounds, rates);
  }

  lemma MarginMeans(leverage: int, tiers: seq<MarginTier>, n: real)
    requires leverage > 0 && ValidTiers(tiers) && tiers != [] && 0.0 <= n
    ensures MarginReads(leverage, tiers, n, Requirement(Bounds(tiers), InitialRates(leverage, tiers), n))
    ensures MaintenanceReads(tiers, n, Requirement(Bounds(tiers), MaintenanceRates(tiers), n))
  {
    hide Requirement, InitialRates, MaintenanceRates, Shares, Uncapped, InFirstTier, AllowedAll, TwiceCaps, Times;
    TierRates(leverage, tiers);
    RatesAreReciprocal(leverage, tiers);
    var bounds := Bounds(tiers);
    ReciprocalAll(InitialRates(leverage, tiers), AllowedAll(leverage, tiers));
    ReciprocalAll(MaintenanceRates(tiers), TwiceCaps(tiers));
    RequirementIsShares(bounds, InitialRates(leverage, tiers), AllowedAll(leverage, tiers), n);
    RequirementIsShares(bounds, MaintenanceRates(tiers), TwiceCaps(tiers), n);
    MarginAtLeast(leverage, tiers, n);
    if InFirstTier(tiers, n) { FirstTierMargin(leverage, tiers, n); }
  }

  lemma ReciprocalAll(rates: seq<real>, divisors: seq<real>)
    requires |rates| == |divisors| && forall i :: 0 <= i < |rates| ==> Times(rates[i], divisors[i], 1.0)
    ensures forall i :: 0 <= i < |rates| ==> rates[i] * divisors[i] == 1.0
  {
  }

  lemma MarginAtLeast(leverage: int, tiers: seq<MarginTier>, n: real)
    requires leverage > 0 && ValidTiers(tiers) && tiers != [] && 0.0 <= n
    ensures var margin := Requirement(Bounds(tiers), InitialRates(leverage, tiers), n);
            && margin * leverage as real >= n
            && (Uncapped(leverage, tiers, n) ==> Times(margin, leverage as real, n))
  {
    hide Requirement, InitialRates, MaintenanceRates, Rise, Times;
    TierRates(leverage, tiers);
    var bounds, rates, one := Bounds(tiers), InitialRates(leverage, tiers), 1.0 / leverage as real;
    var margin, top := Requirement(bounds, rates, n), Highest(rates, Active(bounds, n));
    forall i | 0 <= i <= Active(bounds, n)
      ensures one <= RateAfter(rates, i) <= top
      ensures Uncapped(leverage, tiers, n) ==> RateAfter(rates, i) == one
    {
      InitialRatesAbove(leverage, tiers, if i == 0 then 0 else i - 1);
      RatesWithin(rates, Active(bounds, n), i);
      assert i > 0 ==> bounds[i - 1] <= n;
    }
    Reciprocal(leverage as real);
    RequirementBetween(bounds, rates, n, one, top);
    AtLeastOver(one, leverage as real, n, margin);
    if Uncapped(leverage, tiers, n) {
      RequirementBetween(bounds, rates, n, one, one);
      ExactlyOver(one, leverage as real, n, margin);
    }
  }

  lemma FirstTierActive(tiers: seq<MarginTier>, n: real)
    requires InFirstTier(tiers, n)
    ensures Active(Bounds(tiers), n) <= 1
  {
    if |tiers| > 1 {
      assert Bounds(tiers)[1] == tiers[1].lowerBound;
    }
  }

  lemma FirstTierMargin(leverage: int, tiers: seq<MarginTier>, n: real)
    requires leverage > 0 && ValidTiers(tiers) && InFirstTier(tiers, n) && 0.0 <= n
    ensures Times(Requirement(Bounds(tiers), InitialRates(leverage, tiers), n), Allowed(leverage, tiers[0]) as real, n)
    ensures Times(Requirement(Bounds(tiers), MaintenanceRates(tiers), n), 2.0 * tiers[0].maxLeverage as real, n)
  {
    hide Requirement, InitialRates, MaintenanceRates, Rise, Times;
    TierRates(leverage, tiers);
    RatesAreReciprocal(leverage, tiers);
    var bounds := Bounds(tiers);
    FirstTierActive(tiers, n);
    var rate, half := InitialRates(leverage, tiers)[0], MaintenanceRates(tiers)[0];
    RequirementBetween(bounds, InitialRates(leverage, tiers), n, rate, rate);
    ExactlyOver(rate, Allowed(leverage, tiers[0]) as real, n, Requirement(bounds, InitialRates(leverage, tiers), n));
    RequirementBetween(bounds, MaintenanceRates(tiers), n, half, half);
    ExactlyOver(half, 2.0 * tiers[0].maxLeverage as real, n, Requirement(bounds, MaintenanceRates(tiers), n));
  }

  /** Margin, with or without tiers, reads as above. */
  lemma MarginOfReads(o: Order, n: real)
    requires o.leverage > 0 && ValidTiers(o.tiers) && 0.0 <= n
    ensures MarginReads(o.leverage, o.tiers, n, Margin(o, n))
    ensures o.tiers != [] ==> MaintenanceReads(o.tiers, n, Requirement(Bounds(o.tiers), MaintenanceRates(o.tiers), n))
  {
    hide Requirement, MarginReads, MaintenanceReads;
    if o.tiers != [] {
      MarginMeans(o.leverage, o.tiers, n);
    } else {
      FlatReads(o.leverage, n);
    }
  }

  lemma FlatReads(leverage: int, n: real)
    requires leverage > 0 && 0.0 <= n
    ensures MarginReads(leverage, [], n, n / leverage as real)
  {
    assert (n / leverage as real) * leverage as real == n;
  }

  /** The highest rate up to a notional is one over the leverage allowed by some tier that applies to it. */
  lemma HighestRateAttained(o: Order, n: real)
    requires o.leverage > 0 && ValidTiers(o.tiers) && 0.0 <= n
    ensures o.tiers == [] ==> Times(HighestRate(o, n), o.leverage as real, 1.0)
    ensures o.tiers != [] ==>
              exists i :: 0 <= i < |o.tiers| && (i == 0 || o.tiers[i].lowerBound <= n)
                          && Times(HighestRate(o, n), Allowed(o.leverage, o.tiers[i]) as real, 1.0)
  {
    hide Times, Highest, InitialRate;
    if o.tiers == [] {
      Reciprocal(o.leverage as real);
    } else {
      var rates, k := InitialRates(o.leverage, o.tiers), Active(Bounds(o.tiers), n);
      RatesAreReciprocal(o.leverage, o.tiers);
      var j := HighestAt(rates, k);
      var i := if j == 0 then 0 else j - 1;
      assert j > 0 ==> Bounds(o.tiers)[j - 1] <= n;
      assert HighestRate(o, n) == rates[i];
      assert Times(HighestRate(o, n), Allowed(o.leverage, o.tiers[i]) as real, 1.0);
    }
  }

  lemma {:induction false} HighestAt(rates: seq<real>, k: nat) returns (j: nat)
    requires 0 < |rates| && k <= |rates|
    ensures j <= k && Highest(rates, k) == RateAfter(rates, j)
  {
    if k == 0 || RateAfter(rates, k) > Highest(rates, k - 1) {
      j := k;
    } else {
      j := HighestAt(rates, k - 1);
    }
  }

  // ------------------------------------------------- the whole computation

  function TickScale(szDecimals: int): (s: real)
    ensures s > 0.0
  {
    var d := if szDecimals == 0 then 5 else szDecimals;
    if d >= 0 then Decimals.Pow10(d) as real
    else
      assert Decimals.Pow10(-d) as real > 0.0;
      1.0 / Decimals.Pow10(-d) as real
  }

  /** Ten to the number of digits, where zero digits mean five: each digit more is a factor of ten. */
  lemma TickScaleReads(d: int)
    ensures TickScale(0) == 100000.0 && TickScale(1) == 10.0 && TickScale(-1) == 0.1
    ensures d != 0 && d != -1 ==> TickScale(d + 1) == 10.0 * TickScale(d)
  {
    assert Decimals.Pow10(5) == 100000;
    if d >= 0 {
      assert Decimals.Pow10(d + 1) == 10 * Decimals.Pow10(d);
    } else if d < -1 {
      var p := Decimals.Pow10(-d - 1) as real;
      assert Decimals.Pow10(-d) == 10 * Decimals.Pow10(-d - 1);
      TenthOf(p);
    }
  }

  lemma TenthOf(p: real)
    requires p > 0.0
    ensures 1.0 / p == 10.0 * (1.0 / (10.0 * p))
  {
    var x, y := 1.0 / p, 1.0 / (10.0 * p);
    assert x * p == 1.0 && y * (10.0 * p) == 1.0;
    assert (x - 10.0 * y) * p == 0.0;
  }

  predicate Accepted(o: Order) {
    && o.price > 0.0 && o.leverage > 0 && o.feeRate >= 0.0 && o.amount > 0.0
    && o.amountType in {"spend", "notional", "tokens"}
  }

  /** The largest whole number of ticks within a notional. */
  function FloorTokens(notional: real, price: real, scale: real): real
    requires price > 0.0 && scale > 0.0
  {
    (notional / price * scale).Floor as real / scale
  }

  /** A whole number of ticks, `scale` of them to the token. */
  ghost predicate WholeTicks(tokens: real, scale: real) { (tokens * scale).Floor as real == tokens * scale }

  lemma FloorToTick(notional: real, price: real, scale: real, tokens: real)
    requires price > 0.0 && scale > 0.0 && notional >= 0.0 && tokens == FloorTokens(notional, price, scale)
    ensures WholeTicks(tokens, scale)
    ensures 0.0 <= tokens && 0.0 <= tokens * price && 0.0 <= notional - tokens * price < price / scale
  {
    var q := notional / price * scale;
    var f := q.Floor as real;
    assert f <= q < f + 1.0;
    assert tokens * scale == f;
    assert q >= 0.0 by {
      Inverse(price);
      Ordered(0.0, notional, 1.0 / price);
      assert notional / price == notional * (1.0 / price);
      Ordered(0.0, notional / price, scale);
    }
    TickArithmetic(notional, price, scale, q, f);
    Ordered(0.0, tokens, price);
  }

  lemma TickArithmetic(notional: real, price: real, scale: real, q: real, f: real)
    requires price > 0.0 && scale > 0.0 && q == notional / price * scale && 0.0 <= f <= q < f + 1.0
    ensures 0.0 <= f / scale && 0.0 <= notional - f / scale * price < price / scale
  {
    var u := price / scale;
    assert u * scale == price;
    assert u > 0.0;
    var t := f / scale;
    assert t * scale == f;
    assert t * price == f * u by { assert t * price == t * (u * scale); assert t * (u * scale) == (t * scale) * u; }
    assert notional == q * u by {
      var w := notional / price;
      assert w * price == notional;
      assert q * u == w * (u * scale);
    }
    assert notional - t * price == (q - f) * u;
    Ordered(0.0, q - f, u);
    PositiveGap(u, q - f, 1.0);
    if t < 0.0 { Positive(-t, scale); }
  }

  /** After rounding down to ticks, the cost falls short of the spend by less than one tick's worth. */
  lemma SpendShortfall(o: Order, notional: real, actual: real, tick: real)
    requires o.leverage > 0 && ValidTiers(o.tiers) && o.feeRate >= 0.0
    requires 0.0 <= actual && 0.0 <= notional - actual < tick
    ensures 0.0 <= (Margin(o, notional) + notional * o.feeRate) - (Margin(o, actual) + actual * o.feeRate)
    ensures (Margin(o, notional) + notional * o.feeRate) - (Margin(o, actual) + actual * o.feeRate)
              < (HighestRate(o, notional) + o.feeRate) * tick
  {
    hide Margin, HighestRate, Rise;
    HighestRatePositive(o, notional);
    if actual < notional {
      MarginSlope(o, actual, notional);
    }
    ShortfallArithmetic(HighestRate(o, notional), o.feeRate, notional, actual, tick);
  }

  lemma ShortfallArithmetic(h: real, fee: real, n: real, m: real, tick: real)
    requires h > 0.0 && fee >= 0.0 && 0.0 <= n - m < tick
    ensures 0.0 <= n * fee - m * fee
    ensures Rise(h, m, n) + (n * fee - m * fee) < (h + fee) * tick
    ensures 0.0 < (h + fee) * tick
  {
  }

  lemma HighestRatePositive(o: Order, n: real)
    requires o.leverage > 0 && ValidTiers(o.tiers)
    ensures HighestRate(o, n) > 0.0
  {
  }

  /** The notional an accepted order asks for, before rounding to ticks. */
  method AskedNotional(o: Order) returns (notional: real)
    requires Accepted(o) && ValidTiers(o.tiers)
    ensures 0.0 < notional
    ensures o.amountType == "spend" ==> Margin(o, notional) + notional * o.feeRate == o.amount
    ensures o.amountType == "notional" ==> notional == o.amount
    ensures o.amountType == "tokens" ==> notional == o.amount * o.price
  {
    hide Margin, ValidTiers;
    if o.amountType == "spend" {
      notional := SpendNotional(o);
    } else if o.amountType == "notional" {
      notional := o.amount;
    } else {
      notional := o.amount * o.price;
      Positive(o.amount, o.price);
    }
  }

  method SpendNotional(o: Order) returns (notional: real)
    requires Accepted(o) && ValidTiers(o.tiers)
    ensures 0.0 < notional && Margin(o, notional) + notional * o.feeRate == o.amount
  {
    hide Requirement, InitialRates, Bounds;
    if |o.tiers| > 0 {
      notional := NotionalForSpend(o.tiers, o.leverage, o.feeRate, o.amount);
    } else {
      Reciprocals(o.leverage, o.leverage);
      notional := FlatNotional(o.amount, o.leverage as real, o.feeRate);
    }
  }

  method FlatNotional(amount: real, leverage: real, fee: real) returns (n: real)
    requires amount > 0.0 && leverage > 0.0 && fee >= 0.0 && 1.0 / leverage > 0.0
    ensures n > 0.0 && n / leverage + n * fee == amount
  {
    n := amount / (1.0 / leverage + fee);
    FlatSpend(amount, leverage, fee, n);
  }

  lemma FlatSpend(amount: real, leverage: real, fee: real, n: real)
    requires amount > 0.0 && leverage > 0.0 && fee >= 0.0 && 1.0 / leverage > 0.0 && n == amount / (1.0 / leverage + fee)
    ensures n > 0.0 && n / leverage + n * fee == amount
  {
  }

  /**
   * The whole computation. A spend order's true cost never exceeds the amount
   * and falls short of it by less than one tick at the highest rate in force;
   * tokens are the largest whole number of ticks within the notional asked.
   */
  method ComputeOrderBreakdown(o: Order) returns (b: Breakdown, ghost asked: real)
    requires ValidTiers(o.tiers)
    ensures !Accepted(o) ==> b == ZERO_BREAKDOWN
    ensures Accepted(o) ==>
              && b.notional == b.tokens * o.price
              && WholeTicks(b.tokens, TickScale(o.szDecimals))
              && 0.0 <= b.tokens && 0.0 <= asked - b.notional < o.price / TickScale(o.szDecimals)
              && b.marginRequired == Margin(o, b.notional)
              && MarginReads(o.leverage, o.tiers, b.notional, b.marginRequired)
              && b.estimatedFee == b.notional * o.feeRate
              && b.totalSpend == b.marginRequired + b.estimatedFee
              && OrderEstimate(o, b.tokens, b.estimatedFee, b.liquidationPrice)
              && IsNextThreshold(o.tiers, b.notional, b.nextTierThreshold)
    ensures Accepted(o) && o.amountType == "notional" ==> asked == o.amount
    ensures Accepted(o) && o.amountType == "tokens" ==> asked == o.amount * o.price
    ensures Accepted(o) && o.amountType == "spend" ==>
              && Margin(o, asked) + asked * o.feeRate == o.amount
              && MarginReads(o.leverage, o.tiers, asked, o.amount - asked * o.feeRate)
              && 0.0 <= o.amount - b.totalSpend
                     < (HighestRate(o, asked) + o.feeRate) * (o.price / TickScale(o.szDecimals))
    ensures Accepted(o) ==>
              && (b.effectiveLeverage.Some? <==> o.tiers != [])
              && (b.effectiveMaintenanceRate.Some? <==> o.tiers != [] && b.notional > 0.0)
    ensures Accepted(o) && b.effectiveMaintenanceRate.Some? ==>
              && b.effectiveMaintenanceRate.value * b.notional
                   == Requirement(Bounds(o.tiers), MaintenanceRates(o.tiers), b.notional)
              && MaintenanceReads(o.tiers, b.notional, b.effectiveMaintenanceRate.value * b.notional)
    ensures Accepted(o) && b.effectiveLeverage.Some? && b.notional > 0.0 ==>
              b.marginRequired > 0.0 && b.effectiveLeverage.value * b.marginRequired == b.notional
  {
    hide Margin, HighestRate, Requirement, OrderEstimate, TickScale, ValidTiers, FloorTokens, IsNextThreshold, WholeTicks;
    hide MarginReads, MaintenanceReads;
    asked := 0.0;
    if !Accepted(o) {
      return ZERO_BREAKDOWN, asked;
    }
    var notional := AskedNotional(o);
    asked := notional;
    var scale := TickScale(o.szDecimals);
    var tokens := FloorTokens(notional, o.price, scale);
    var actual := tokens * o.price;
    FloorToTick(notional, o.price, scale, tokens);
    var margin, next, mm := Margins(o, actual);
    SpendShortfall(o, asked, actual, o.price / scale);
    MarginOfReads(o, asked);
    MarginOfReads(o, actual);
    var fee := actual * o.feeRate;
    var liq := EstimateLiquidation(o, tokens, fee);
    var effLev, effMm := Effective(o, actual, margin, mm);
    b := Breakdown(tokens, actual, margin, fee, margin + fee, effLev, effMm, next, liq);
  }

  method Margins(o: Order, actual: real) returns (margin: real, next: Option<real>, mm: real)
    requires Accepted(o) && ValidTiers(o.tiers)
    ensures margin == Margin(o, actual)
    ensures o.tiers != [] ==> mm == Requirement(Bounds(o.tiers), MaintenanceRates(o.tiers), actual)
    ensures IsNextThreshold(o.tiers, actual, next)
  {
    hide Requirement;
    margin, next, mm := 0.0, None, 0.0;
    if |o.tiers| > 0 {
      margin, next := MarginLoop(o.tiers, o.leverage, actual);
      mm := MaintenanceLoop(o.tiers, actual);
    } else {
      margin := actual / o.leverage as real;
    }
  }

  method Effective(o: Order, actual: real, margin: real, mm: real) returns (leverage: Option<real>, rate: Option<real>)
    requires Accepted(o) && ValidTiers(o.tiers) && 0.0 <= actual && margin == Margin(o, actual)
    ensures leverage.Some? <==> o.tiers != []
    ensures leverage.Some? && actual > 0.0 ==> margin > 0.0 && leverage.value * margin == actual
    ensures rate.Some? <==> o.tiers != [] && actual > 0.0
    ensures rate.Some? ==> rate.value * actual == mm
  {
    hide Margin;
    leverage, rate := None, None;
    if |o.tiers| > 0 {
      if actual > 0.0 {
        MarginPositive(o, actual);
        leverage, rate := Some(actual / margin), Some(mm / actual);
      } else {
        leverage := Some(o.leverage as real);
      }
    }
  }

  lemma MarginPositive(o: Order, n: real)
    requires o.leverage > 0 && ValidTiers(o.tiers) && o.tiers != [] && n > 0.0
    ensures Margin(o, n) > 0.0
  {
    TierRates(o.leverage, o.tiers);
    RequirementOfNothing(Bounds(o.tiers), InitialRates(o.leverage, o.tiers));
    MarginSlope(o, 0.0, n);
  }

  /** The estimate itself, from the merged position and the maintenance loop. */
  method EstimateLiquidation(o: Order, tokens: real, fee: real) returns (liq: Option<real>)
    requires ValidTiers(o.tiers)
    ensures OrderEstimate(o, tokens, fee, liq)
  {
    hide Liquidation, Requirement, MergedNotional, MergeOrder, FlatMaintenance, EstimateMeans;
    liq := None;
    HeldIsPositive(o, tokens);
    if (o.maintenanceRate.Some? || |o.tiers| > 0) && o.account.Some? {
      var ctx := o.account.value;
      var m := MergeOrder(o.side, tokens, o.price, ctx.existing);
      if m.Some? && m.value.size > 0.0 {
        var notional := MergedNotional(m.value);
        var mm := 0.0;
        if |o.tiers| > 0 {
          mm := MaintenanceLoop(o.tiers, notional);
        } else {
          mm := FlatMaintenance(o.maintenanceRate.value, notional);
        }
        liq := Liquidation(o.price, m.value, mm, ctx.equity - fee - (ctx.otherMaintenanceMargin + mm));
        LiquidationIsBreakEven(o.price, m.value, mm, ctx.equity - fee, ctx.otherMaintenanceMargin);
      }
    }
  }

  /** A notional of 1000 at 100, leverage five under a cap of fifty: ten tokens, and 200 of margin. */
  method WorkedNotional() returns (b: Breakdown)
    ensures b.tokens == 10.0 && b.notional == 1000.0 && b.marginRequired == 200.0
    ensures b.estimatedFee == 1.0 && b.totalSpend == 201.0 && b.nextTierThreshold == None && b.liquidationPrice == None
  {
    var tiers := [MarginTier(0.0, 50)];
    ghost var asked;
    b, asked := ComputeOrderBreakdown(Order(1000.0, "notional", 5, 0.001, 100.0, Long, 2, tiers, None, None));
    WorkedScale();
    WholeWithin(b.tokens);
    assert Times(b.marginRequired, 5.0, b.notional);
  }

  /** A spend of 200 without fee buys that notional back. */
  method WorkedSpend() returns (b: Breakdown)
    ensures b.tokens == 10.0 && b.notional == 1000.0 && b.marginRequired == 200.0 && b.totalSpend == 200.0
  {
    var tiers := [MarginTier(0.0, 50)];
    ghost var asked;
    b, asked := ComputeOrderBreakdown(Order(200.0, "spend", 5, 0.0, 100.0, Long, 2, tiers, None, None));
    WorkedScale();
    assert Times(200.0, 5.0, asked) by { assert asked * 0.0 == 0.0; }
    WholeWithin(b.tokens);
    assert Times(b.marginRequired, 5.0, b.notional);
  }

  lemma WorkedScale()
    ensures TickScale(2) == 100.0
  {
    TickScaleReads(1);
  }

  /** The only whole number of hundredths within 1000 at 100, less than one hundredth below it. */
  lemma WholeWithin(tokens: real)
    requires WholeTicks(tokens, 100.0) && 0.0 <= 1000.0 - tokens * 100.0 < 100.0 / 100.0
    ensures tokens == 10.0
  {
    var k := (tokens * 100.0).Floor;
    assert 999.0 < k as real <= 1000.0;
  }
}
