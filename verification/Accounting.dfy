/**
 * accounting_pending.go: composing the ledger's positions with executions the
 * venue has confirmed and the ledger has not recorded yet. Rationals are exact
 * reals; a text that does not parse is None.
 */
module Accounting {
  import opened Text
  import opened OrderBreakdown

  datatype Execution = Execution(
    operationId: string,
    market: string,
    side: string,
    unaccounted: Option<real>,
    averagePrice: Option<real>)

  datatype LedgerPosition = LedgerPosition(market: string, side: PositionSide, size: Option<real>, entryPrice: Option<real>)

  function LowerChar(c: char): char {
    if 'A' <= c <= 'Z' then c - 'A' + 'a' else c
  }

  /** strings.ToLower on the ASCII letters, the only ones the side words contain. */
  function ToLower(s: string): string { seq(|s|, i requires 0 <= i < |s| => LowerChar(s[i])) }

  /** The signed quantity an execution still adds; None when it cannot be composed. */
  function SignedUnaccounted(e: Execution): Option<real> {
    if e.unaccounted.None? || e.unaccounted.value < 0.0 then None
    else
      var side := ToLower(e.side);
      if side in {"buy", "long"} then Some(e.unaccounted.value)
      else if side in {"sell", "short"} then Some(-e.unaccounted.value)
      else None
  }

  function PositivePrice(text: Option<real>): Option<real> {
    if text.Some? && text.value > 0.0 then text else None
  }

  /** A market's signed quantity and, when known, its entry price. */
  datatype Holding = Holding(signed: real, entry: Option<real>)

  const FLAT_HOLDING := Holding(0.0, None)

  function Sign(x: real): int { if x > 0.0 then 1 else if x < 0.0 then -1 else 0 }

  function AbsReal(x: real): real { if x < 0.0 then -x else x }

  function BlendedEntry(held: real, entry: Option<real>, delta: real, price: Option<real>): Option<real> {
    var next := held + delta;
    if Sign(held) == 0 || Sign(next) == 0 then price
    else if Sign(held) != Sign(next) then price
    else if Sign(delta) != Sign(held) then entry
    else if entry.None? || price.None? then None
    else Some(Weighted(AbsReal(held), entry.value, AbsReal(delta), price.value))
  }

  /** One execution applied to a holding; `price` is its positive average price, if it has one. */
  function Apply(h: Holding, delta: real, price: Option<real>): Holding {
    Holding(h.signed + delta, BlendedEntry(h.signed, h.entry, delta, price))
  }

  predicate Composable(pending: seq<Execution>) {
    forall i :: 0 <= i < |pending| ==> SignedUnaccounted(pending[i]).Some?
  }

  function ApplyAll(h: Holding, pending: seq<Execution>): Holding
    requires Composable(pending)
    decreases |pending|
  {
    if pending == [] then h
    else ApplyAll(Apply(h, SignedUnaccounted(pending[0]).value, PositivePrice(pending[0].averagePrice)), pending[1..])
  }

  function SumDeltas(pending: seq<Execution>): real
    requires Composable(pending)
  {
    if pending == [] then 0.0 else SignedUnaccounted(pending[0]).value + SumDeltas(pending[1..])
  }

  // ------------------------------------------------- quantity

  lemma {:induction false} AppliedQuantity(h: Holding, pending: seq<Execution>)
    requires Composable(pending)
    ensures ApplyAll(h, pending).signed == h.signed + SumDeltas(pending)
    decreases |pending|
  {
    if pending != [] {
      AppliedQuantity(Apply(h, SignedUnaccounted(pending[0]).value, PositivePrice(pending[0].averagePrice)), pending[1..]);
    }
  }

  lemma {:induction false} SumSplits(a: seq<Execution>, b: seq<Execution>)
    requires Composable(a) && Composable(b)
    ensures Composable(a + b) && SumDeltas(a + b) == SumDeltas(a) + SumDeltas(b)
  {
    if a == [] {
      assert a + b == b;
    } else {
      assert (a + b)[1..] == a[1..] + b;
      SumSplits(a[1..], b);
    }
  }

  lemma SumWithout(b: seq<Execution>, i: nat)
    requires i < |b| && Composable(b)
    ensures Composable(Without(b, i)) && SumDeltas(b) == SignedUnaccounted(b[i]).value + SumDeltas(Without(b, i))
  {
    hide SignedUnaccounted;
    var head, tail := b[..i], b[i..];
    assert b == head + tail && b[i + 1..] == tail[1..];
    assert Composable(head) && Composable(tail) && Composable(tail[1..]);
    SumSplits(head, tail);
    SumSplits(head, tail[1..]);
  }

  lemma MultisetWithout(b: seq<Execution>, i: nat)
    requires i < |b|
    ensures multiset(Without(b, i)) == multiset(b) - multiset{b[i]}
  {
    assert b == b[..i] + [b[i]] + b[i + 1..];
  }

  lemma SameElements(a: seq<Execution>, b: seq<Execution>)
    requires multiset(a) == multiset(b)
    ensures |a| == |b| && (Composable(a) <==> Composable(b)) && forall e :: e in a <==> e in b
  {
    hide SignedUnaccounted;
    assert |multiset(a)| == |a| && |multiset(b)| == |b|;
    forall e
      ensures e in a <==> e in b
    {
      assert e in a <==> e in multiset(a);
      assert e in b <==> e in multiset(b);
    }
    forall i | 0 <= i < |a|
      ensures a[i] in b
    {
    }
    forall i | 0 <= i < |b|
      ensures b[i] in a
    {
    }
  }

  /** The composed quantity does not depend on the order the executions are listed in. */
  lemma {:induction false} SumIgnoresOrder(a: seq<Execution>, b: seq<Execution>)
    requires Composable(a) && multiset(a) == multiset(b)
    ensures Composable(b) && SumDeltas(a) == SumDeltas(b)
    decreases |a|
  {
    hide SignedUnaccounted, Without;
    SameElements(a, b);
    if a != [] {
      assert a[0] in b;
      var i :| 0 <= i < |b| && b[i] == a[0];
      MultisetWithout(b, i);
      assert a == [a[0]] + a[1..];
      assert multiset(a[1..]) == multiset(a) - multiset{a[0]};
      SumIgnoresOrder(a[1..], Without(b, i));
      SumWithout(b, i);
    }
  }

  // ------------------------------------------------- the accounting window

  lemma SamePriceBlend(q1: real, q2: real, p: real)
    requires q1 > 0.0 && q2 > 0.0
    ensures Weighted(q1, p, q2, p) == p
  {
    assert q1 * p + q2 * p == p * (q1 + q2);
  }

  /** Blending in two parts at one price is blending once. */
  lemma BlendInParts(q: real, entry: real, d1: real, d2: real, p: real)
    requires q > 0.0 && d1 > 0.0 && d2 > 0.0
    ensures Weighted(q + d1, Weighted(q, entry, d1, p), d2, p) == Weighted(q, entry, d1 + d2, p)
  {
  }

  /** `part` is some of `delta`, from none of it to all of it. */
  ghost predicate PartOf(part: real, delta: real) {
    0.0 <= part <= delta || delta <= part <= 0.0
  }

  /**
   * Applying an execution in two parts at its own price is applying it once:
   * quantity and entry, across opens, increases, reductions, exact closes and
   * reversals, priced or not.
   */
  lemma ApplyInParts(h: Holding, delta: real, part: real, price: Option<real>)
    requires PartOf(part, delta)
    ensures Apply(Apply(h, part, price), delta - part, price) == Apply(h, delta, price)
  {
    hide Weighted;
    var rest := delta - part;
    if price.Some? {
      var p := price.value;
      if part != 0.0 && rest != 0.0 {
        if Sign(h.signed) == Sign(delta) && h.entry.Some? {
          BlendInParts(AbsReal(h.signed), h.entry.value, AbsReal(part), AbsReal(rest), p);
        } else if Sign(h.signed + part) == Sign(rest) {
          SamePriceBlend(AbsReal(h.signed + part), AbsReal(rest), p);
        }
      }
    }
  }

  /** What a market composes to: nothing, or a signed quantity with its entry. */
  datatype Composition = Flat | Held(signed: real, entry: Option<real>)

  function Outcome(h: Holding): Composition {
    if h.signed == 0.0 then Flat else Held(h.signed, h.entry)
  }

  /** The ledger's own holding after it records part of an execution: a market at zero has no row. */
  function LedgerFolds(h: Holding, part: real, price: Option<real>): Holding {
    var next := Apply(h, part, price);
    if next.signed == 0.0 then FLAT_HOLDING else next
  }

  /** From zero, the entry carried so far makes no difference to what is composed next. */
  lemma FlatForgetsEntry(h: Holding, pending: seq<Execution>)
    requires h.signed == 0.0 && Composable(pending)
    ensures Outcome(ApplyAll(h, pending)) == Outcome(ApplyAll(FLAT_HOLDING, pending))
  {
  }

  /** An execution after the ledger has recorded `part` of its signed quantity. */
  function Remaining(e: Execution, part: real): Execution
    requires SignedUnaccounted(e).Some?
  {
    e.(unaccounted := Some(e.unaccounted.value - AbsReal(part)))
  }

  /**
   * The accounting-window law: while the ledger folds the leading pending
   * execution, fill by fill at its own price, the composed market reads the
   * same at every step, from none of it recorded to all of it.
   */
  lemma WindowLaw(h: Holding, pending: seq<Execution>, part: real)
    requires Composable(pending) && pending != []
    requires PartOf(part, SignedUnaccounted(pending[0]).value)
    ensures var e, price := pending[0], PositivePrice(pending[0].averagePrice);
            var left := [Remaining(e, part)] + pending[1..];
            && Composable(left)
            && Outcome(ApplyAll(LedgerFolds(h, part, price), left)) == Outcome(ApplyAll(h, pending))
    ensures var e, price := pending[0], PositivePrice(pending[0].averagePrice);
            part == SignedUnaccounted(e).value ==>
              Outcome(ApplyAll(LedgerFolds(h, part, price), pending[1..])) == Outcome(ApplyAll(h, pending))
  {
    var e, price, delta := pending[0], PositivePrice(pending[0].averagePrice), SignedUnaccounted(pending[0]).value;
    var r := Remaining(e, part);
    var left := [r] + pending[1..];
    assert SignedUnaccounted(r) == Some(delta - part);
    assert left[1..] == pending[1..];
    var folded := Apply(h, part, price);
    ApplyInParts(h, delta, part, price);
    assert ApplyAll(folded, left) == ApplyAll(h, pending);
    if folded.signed == 0.0 {
      FlatForgetsEntry(folded, left);
      FlatForgetsEntry(folded, pending[1..]);
    }
  }

  /** Folding part of any pending execution, in any position, keeps the composed quantity. */
  lemma WindowQuantity(h: Holding, a: seq<Execution>, e: Execution, b: seq<Execution>, part: real, price: Option<real>)
    requires Composable(a + [e] + b) && SignedUnaccounted(e).Some? && PartOf(part, SignedUnaccounted(e).value)
    ensures var left := a + [Remaining(e, part)] + b;
            Composable(left) && ApplyAll(LedgerFolds(h, part, price), left).signed == ApplyAll(h, a + [e] + b).signed
  {
    var r := Remaining(e, part);
    assert SignedUnaccounted(r) == Some(SignedUnaccounted(e).value - part);
    hide SignedUnaccounted, BlendedEntry, Remaining;
    var all := a + [e] + b;
    assert forall i :: 0 <= i < |a| ==> a[i] == all[i];
    assert forall i :: 0 <= i < |b| ==> b[i] == all[|a| + 1 + i];
    assert Composable(a) && Composable(b);
    var delta := SignedUnaccounted(e).value;
    SumSplits(a, [e]);
    SumSplits(a + [e], b);
    SumSplits(a, [r]);
    SumSplits(a + [r], b);
    AppliedQuantity(h, all);
    AppliedQuantity(LedgerFolds(h, part, price), a + [r] + b);
    assert SumDeltas([e]) == delta + SumDeltas([e][1..]) && SumDeltas([r]) == (delta - part) + SumDeltas([r][1..]);
  }

  // ------------------------------------------------- executions out of order

  /** A blend keeps its first price exactly when the second is the same. */
  lemma BlendKeepsIff(q1: real, p1: real, q2: real, p2: real)
    requires q1 > 0.0 && q2 > 0.0
    ensures Weighted(q1, p1, q2, p2) == p1 <==> p1 == p2
    ensures Weighted(q1, p1, q2, p2) == p2 <==> p1 == p2
    ensures Weighted(q1, p1, q2, p2) == Weighted(q2, p2, q1, p1)
  {
    var w := Weighted(q1, p1, q2, p2);
    assert w * (q1 + q2) == q1 * p1 + q2 * p2;
    if w == p1 {
      assert q2 * (p1 - p2) == 0.0;
    }
    if w == p2 {
      assert q1 * (p1 - p2) == 0.0;
    }
    if p1 == p2 {
      assert (w - p1) * (q1 + q2) == 0.0;
    }
  }

  lemma BlendsCommute(q: real, entry: real, d1: real, p1: real, d2: real, p2: real)
    requires q > 0.0 && d1 > 0.0 && d2 > 0.0
    ensures Weighted(q + d1, Weighted(q, entry, d1, p1), d2, p2) == Weighted(q + d2, Weighted(q, entry, d2, p2), d1, p1)
  {
    var w, u := Weighted(q, entry, d1, p1), Weighted(q, entry, d2, p2);
    assert w * (q + d1) == q * entry + d1 * p1 && u * (q + d2) == q * entry + d2 * p2;
    assert (q + d1) * w + d2 * p2 == (q + d2) * u + d1 * p1;
  }

  /** Two executions that each reverse a debt of k leave one entry exactly when their prices agree. */
  lemma BlendAcrossIff(k: real, d1: real, p1: real, d2: real, p2: real)
    requires 0.0 < k < d1 && k < d2
    ensures Weighted(d1 - k, p1, d2, p2) == Weighted(d2 - k, p2, d1, p1) <==> p1 == p2
  {
    var w, u := Weighted(d1 - k, p1, d2, p2), Weighted(d2 - k, p2, d1, p1);
    assert w * (d1 + d2 - k) == (d1 - k) * p1 + d2 * p2;
    assert u * (d1 + d2 - k) == (d2 - k) * p2 + d1 * p1;
    assert (w - u) * (d1 + d2 - k) == k * (p2 - p1);
    if w == u {
      assert k * (p2 - p1) == 0.0;
    }
    if p1 == p2 {
      assert (w - u) * (d1 + d2 - k) == 0.0;
    }
  }

  /** Reducing before or after an increase leaves one entry exactly when the increase is at the entry price. */
  lemma BlendReducedIff(q: real, entry: real, d: real, p: real, cut: real)
    requires 0.0 < cut < q && d > 0.0
    ensures Weighted(q, entry, d, p) == Weighted(q - cut, entry, d, p) <==> entry == p
  {
    var w, u := Weighted(q, entry, d, p), Weighted(q - cut, entry, d, p);
    assert w * (q + d) == q * entry + d * p && u * (q - cut + d) == (q - cut) * entry + d * p;
    if entry == p {
      BlendKeepsIff(q, entry, d, p);
      BlendKeepsIff(q - cut, entry, d, p);
    }
    if w == u {
      assert w * cut == cut * entry;
      assert cut * (w - entry) == 0.0;
      BlendKeepsIff(q, entry, d, p);
    }
  }

  /**
   * When an execution (d, p) and a part (part, r) may change places, read off
   * the directions, the zero crossings and the prices. `end` is the quantity
   * both reach; `q` the one held before, at entry `e`.
   */
  predicate MayChangePlaces(q: real, e: Option<real>, d: real, p: Option<real>, part: real, r: Option<real>) {
    var end := Sign(q + d + part);
    if Sign(d) == 0 || Sign(part) == 0 || end == 0 then true
    else if Sign(d) != end && Sign(part) != end then true
    else if Sign(d) == end && Sign(part) == end then
      || Sign(q) == 0 || Sign(q) == end || p == r
      || (p.None? && Sign(q + d) == end) || (r.None? && Sign(q + part) == end)
    else if Sign(d) == end then
      Sign(q) != end || e == p || p.None? || (e.None? && Sign(q + part) == end)
    else
      Sign(q) != end || e == r || r.None? || (e.None? && Sign(q + d) == end)
  }

  ghost predicate ChangesPlaces(h: Holding, d: real, p: Option<real>, part: real, r: Option<real>) {
    Outcome(Apply(Apply(h, d, p), part, r)) == Outcome(Apply(Apply(h, part, r), d, p))
  }

  /** The exact law: moving a part past one execution keeps what is composed if and only if the guards above say so. */
  lemma ChangesPlacesIff(h: Holding, d: real, p: Option<real>, part: real, r: Option<real>)
    ensures ChangesPlaces(h, d, p, part, r) <==> MayChangePlaces(h.signed, h.entry, d, p, part, r)
  {
    var end := Sign(h.signed + d + part);
    if Sign(d) == 0 || Sign(part) == 0 || end == 0 {
      IdleChangesPlaces(h, d, p, part, r);
    } else if Sign(d) == Sign(part) {
      SameDirectionIff(h, d, p, part, r);
    } else if Sign(d) == end {
      OppositeIff(h, d, p, part, r);
    } else {
      OppositeIff(h, part, r, d, p);
    }
  }

  lemma IdleChangesPlaces(h: Holding, d: real, p: Option<real>, part: real, r: Option<real>)
    requires Sign(d) == 0 || Sign(part) == 0 || Sign(h.signed + d + part) == 0
    ensures ChangesPlaces(h, d, p, part, r)
  {
    hide Weighted;
  }

  lemma SameDirectionIff(h: Holding, d: real, p: Option<real>, part: real, r: Option<real>)
    requires Sign(d) == Sign(part) != 0 && Sign(h.signed + d + part) != 0
    ensures ChangesPlaces(h, d, p, part, r) <==> MayChangePlaces(h.signed, h.entry, d, p, part, r)
  {
    var q, end := h.signed, Sign(h.signed + d + part);
    if p.Some? && r.Some? && Sign(d) == end {
      if Sign(q) == end && h.entry.Some? {
        BlendsCommute(AbsReal(q), h.entry.value, AbsReal(d), p.value, AbsReal(part), r.value);
      } else if Sign(q) == 0 {
        BlendKeepsIff(AbsReal(d), p.value, AbsReal(part), r.value);
      } else if Sign(q) != end && Sign(q + d) == end && Sign(q + part) == end {
        BlendAcrossIff(AbsReal(q), AbsReal(d), p.value, AbsReal(part), r.value);
      } else if Sign(q) != end && Sign(q + d) == end {
        BlendKeepsIff(AbsReal(q + d), p.value, AbsReal(part), r.value);
      } else if Sign(q) != end && Sign(q + part) == end {
        BlendKeepsIff(AbsReal(q + part), r.value, AbsReal(d), p.value);
      }
    }
    hide Weighted;
  }

  /** An increase and a reduction of what is left at the end. */
  lemma OppositeIff(h: Holding, d: real, p: Option<real>, part: real, r: Option<real>)
    requires Sign(d) == Sign(h.signed + d + part) != 0 && Sign(part) == -Sign(d)
    ensures ChangesPlaces(h, d, p, part, r) <==> MayChangePlaces(h.signed, h.entry, d, p, part, r)
    ensures ChangesPlaces(h, d, p, part, r) == ChangesPlaces(h, part, r, d, p)
  {
    var q, end := h.signed, Sign(d);
    if Sign(q) == end && h.entry.Some? && p.Some? {
      if Sign(q + part) == end {
        BlendReducedIff(AbsReal(q), h.entry.value, AbsReal(d), p.value, AbsReal(part));
      } else {
        BlendKeepsIff(AbsReal(q), h.entry.value, AbsReal(d), p.value);
      }
    }
    hide Weighted;
  }

  /** From one composition, further executions reach one composition. */
  lemma SameOutcomeStays(a: Holding, b: Holding, pending: seq<Execution>)
    requires Outcome(a) == Outcome(b) && Composable(pending)
    ensures Outcome(ApplyAll(a, pending)) == Outcome(ApplyAll(b, pending))
  {
    if a.signed == 0.0 {
      FlatForgetsEntry(a, pending);
      FlatForgetsEntry(b, pending);
    }
  }

  /** The part may change places with every execution of a list, each from the quantity and entry reached before it. */
  predicate MayMoveAhead(h: Holding, a: seq<Execution>, part: real, price: Option<real>)
    requires Composable(a)
    decreases |a|
  {
    a == [] ||
      var d, p := SignedUnaccounted(a[0]).value, PositivePrice(a[0].averagePrice);
      MayChangePlaces(h.signed, h.entry, d, p, part, price) && MayMoveAhead(Apply(h, d, p), a[1..], part, price)
  }

  lemma {:induction false} PartMovesAhead(h: Holding, a: seq<Execution>, part: real, price: Option<real>)
    requires Composable(a) && MayMoveAhead(h, a, part, price)
    ensures Outcome(ApplyAll(Apply(h, part, price), a)) == Outcome(Apply(ApplyAll(h, a), part, price))
    decreases |a|
  {
    hide SignedUnaccounted, BlendedEntry, MayChangePlaces;
    if a != [] {
      var d, p := SignedUnaccounted(a[0]).value, PositivePrice(a[0].averagePrice);
      ChangesPlacesIff(h, d, p, part, price);
      SameOutcomeStays(Apply(Apply(h, part, price), d, p), Apply(Apply(h, d, p), part, price), a[1..]);
      PartMovesAhead(Apply(h, d, p), a[1..], part, price);
    }
  }

  lemma {:induction false} ApplySplits(h: Holding, a: seq<Execution>, b: seq<Execution>)
    requires Composable(a) && Composable(b)
    ensures Composable(a + b) && ApplyAll(h, a + b) == ApplyAll(ApplyAll(h, a), b)
    decreases |a|
  {
    hide SignedUnaccounted, Apply;
    if a == [] {
      assert a + b == b;
    } else {
      assert (a + b)[1..] == a[1..] + b;
      ApplySplits(Apply(h, SignedUnaccounted(a[0]).value, PositivePrice(a[0].averagePrice)), a[1..], b);
    }
  }

  /**
   * The window law for an execution anywhere in the list: recording part of it
   * keeps what the market composes to, whenever that part may change places
   * with everything before it.
   */
  lemma WindowLawAnywhere(h: Holding, a: seq<Execution>, e: Execution, b: seq<Execution>, part: real)
    requires Composable(a) && SignedUnaccounted(e).Some? && Composable(b)
    requires PartOf(part, SignedUnaccounted(e).value) && MayMoveAhead(h, a, part, PositivePrice(e.averagePrice))
    ensures var left := a + [Remaining(e, part)] + b;
            && Composable(a + [e] + b) && Composable(left)
            && Outcome(ApplyAll(LedgerFolds(h, part, PositivePrice(e.averagePrice)), left)) == Outcome(ApplyAll(h, a + [e] + b))
  {
    var price, delta, r := PositivePrice(e.averagePrice), SignedUnaccounted(e).value, Remaining(e, part);
    assert SignedUnaccounted(r) == Some(delta - part) && r.averagePrice == e.averagePrice;
    hide SignedUnaccounted, BlendedEntry, Remaining, MayMoveAhead, ApplyAll;
    var folded, ahead := Apply(h, part, price), ApplyAll(h, a);
    assert Outcome(LedgerFolds(h, part, price)) == Outcome(folded);
    hide LedgerFolds, Apply;
    ListsSplit(folded, a, r, b);
    ListsSplit(h, a, e, b);
    SameOutcomeStays(LedgerFolds(h, part, price), folded, a + [r] + b);
    PartMovesAhead(h, a, part, price);
    OneLess(ApplyAll(folded, a), Apply(ahead, part, price), r, b);
    ApplyInParts(ahead, delta, part, price);
  }

  lemma ListsSplit(h: Holding, a: seq<Execution>, e: Execution, b: seq<Execution>)
    requires Composable(a) && SignedUnaccounted(e).Some? && Composable(b)
    ensures Composable(a + [e] + b) && Composable([e] + b)
    ensures ApplyAll(h, a + [e] + b) ==
              ApplyAll(Apply(ApplyAll(h, a), SignedUnaccounted(e).value, PositivePrice(e.averagePrice)), b)
    ensures ApplyAll(h, a + [e] + b) == ApplyAll(ApplyAll(h, a), [e] + b)
  {
    hide SignedUnaccounted, Apply;
    ApplySplits(h, a, [e] + b);
    ApplySplits(ApplyAll(h, a), [e], b);
    OneApplied(ApplyAll(h, a), e);
    assert a + [e] + b == a + ([e] + b);
  }

  lemma OneLess(x: Holding, y: Holding, e: Execution, b: seq<Execution>)
    requires Outcome(x) == Outcome(y) && SignedUnaccounted(e).Some? && Composable(b)
    ensures Composable([e] + b)
    ensures Outcome(ApplyAll(x, [e] + b)) ==
              Outcome(ApplyAll(Apply(y, SignedUnaccounted(e).value, PositivePrice(e.averagePrice)), b))
  {
    hide SignedUnaccounted, Apply;
    SameOutcomeStays(x, y, [e] + b);
    assert ([e] + b)[1..] == b;
  }

  /** With one execution ahead of it, an execution may be recorded first exactly when the two may change places. */
  lemma RecordedFirstIff(h: Holding, first: Execution, later: Execution)
    requires SignedUnaccounted(first).Some? && SignedUnaccounted(later).Some?
    ensures var d, r := SignedUnaccounted(later).value, PositivePrice(later.averagePrice);
            && Composable([first]) && Composable([first, later])
            && (Outcome(ApplyAll(LedgerFolds(h, d, r), [first])) == Outcome(ApplyAll(h, [first, later])) <==>
                  MayChangePlaces(h.signed, h.entry, SignedUnaccounted(first).value, PositivePrice(first.averagePrice), d, r))
  {
    hide SignedUnaccounted, BlendedEntry, MayChangePlaces;
    var d, r := SignedUnaccounted(later).value, PositivePrice(later.averagePrice);
    var folded := Apply(h, d, r);
    SameOutcomeStays(LedgerFolds(h, d, r), folded, [first]);
    OneApplied(folded, first);
    OneApplied(h, first);
    ApplySplits(h, [first], [later]);
    assert [first] + [later] == [first, later];
    OneApplied(ApplyAll(h, [first]), later);
    ChangesPlacesIff(h, SignedUnaccounted(first).value, PositivePrice(first.averagePrice), d, r);
  }

  /** Every delta of a list points the way of `part`, or nowhere. */
  predicate AllSameWay(a: seq<Execution>, part: real)
    requires Composable(a)
  {
    forall i :: 0 <= i < |a| ==> Sign(SignedUnaccounted(a[i]).value) in {0, Sign(part)}
  }

  /**
   * Two families that never cross zero need no look at prices: only increases,
   * from a holding that does not point the other way, and only reductions that
   * leave some of the holding in place.
   */
  lemma {:induction false} NeverCrossingMoves(h: Holding, a: seq<Execution>, part: real, price: Option<real>)
    requires Composable(a) && AllSameWay(a, part)
    requires Sign(h.signed) in {0, Sign(part)} || Sign(h.signed + SumDeltas(a) + part) in {0, Sign(h.signed)}
    ensures MayMoveAhead(h, a, part, price)
    decreases |a|
  {
    hide SignedUnaccounted, BlendedEntry;
    if a != [] {
      var d, p := SignedUnaccounted(a[0]).value, PositivePrice(a[0].averagePrice);
      SumSameWay(a[1..], part);
      NeverCrossingMoves(Apply(h, d, p), a[1..], part, price);
    }
  }

  lemma {:induction false} SumSameWay(a: seq<Execution>, part: real)
    requires Composable(a) && AllSameWay(a, part)
    ensures Sign(SumDeltas(a)) in {0, Sign(part)}
  {
    hide SignedUnaccounted;
    if a != [] { SumSameWay(a[1..], part); }
  }

  lemma OneApplied(h: Holding, e: Execution)
    requires SignedUnaccounted(e).Some?
    ensures ApplyAll(h, [e]) == Apply(h, SignedUnaccounted(e).value, PositivePrice(e.averagePrice))
  {
    assert [e][1..] == [];
  }

  /** With an earlier execution the other way, folding the later one first can change the entry price. */
  lemma LaterExecutionMayMoveEntry()
    ensures var first := Execution("a", "BTC", "sell", Some(2.0), Some(20.0));
            var later := Execution("b", "BTC", "buy", Some(3.0), Some(30.0));
            var h := Holding(1.0, Some(10.0));
            && Composable([first, later])
            && ApplyAll(h, [first, later]) == Holding(2.0, Some(30.0))
            && ApplyAll(LedgerFolds(h, 3.0, Some(30.0)), [first]) == Holding(2.0, Some(25.0))
  {
    var first := Execution("a", "BTC", "sell", Some(2.0), Some(20.0));
    var later := Execution("b", "BTC", "buy", Some(3.0), Some(30.0));
    var h := Holding(1.0, Some(10.0));
    SideWords();
    assert SignedUnaccounted(first) == Some(-2.0) && SignedUnaccounted(later) == Some(3.0);
    assert [first, later][1..] == [later] && [later][1..] == [];
    assert ApplyAll(h, [first, later]) == ApplyAll(Holding(-1.0, Some(20.0)), [later]);
    assert ApplyAll(Holding(-1.0, Some(20.0)), [later]) == ApplyAll(Holding(2.0, Some(30.0)), []);
    assert Apply(h, 3.0, Some(30.0)) == Holding(4.0, Some(25.0)) by {
      assert Weighted(1.0, 10.0, 3.0, 30.0) == 25.0;
    }
    assert [first][1..] == [];
    assert ApplyAll(Holding(4.0, Some(25.0)), [first]) == ApplyAll(Holding(2.0, Some(25.0)), []);
  }

  lemma SideWords()
    ensures ToLower("buy") == "buy" && ToLower("sell") == "sell"
  {
  }

  // ------------------------------------------------- agreement with the order breakdown

  ghost function SignedOf(side: PositionSide, size: real): real {
    if side == Long then size else -size
  }

  /**
   * The two merge rules of the SDK agree: for positive sizes and prices,
   * mergeOrderWithPosition gives the side, size, entry and flat verdict of
   * composing the position with one signed execution.
   */
  lemma MergeAgreesWithComposition(side: PositionSide, size: real, price: real, existing: Option<ExistingPosition>)
    requires size > 0.0 && price > 0.0
    requires existing.Some? ==> existing.value.size > 0.0 && existing.value.entryPrice > 0.0
    ensures var h := if existing.None? then FLAT_HOLDING
                     else Holding(SignedOf(existing.value.side, existing.value.size), Some(existing.value.entryPrice));
            var merged := MergeOrder(side, size, price, existing);
            Outcome(Apply(h, SignedOf(side, size), Some(price)))
              == if merged.None? then Flat else Held(SignedOf(merged.value.side, merged.value.size), Some(merged.value.entry))
    ensures var merged := MergeOrder(side, size, price, existing); merged.Some? ==> merged.value.size > 0.0
  {
    hide Weighted;
    if existing.Some? {
      var ex := existing.value;
      assert AbsReal(SignedOf(ex.side, ex.size)) == ex.size && AbsReal(SignedOf(side, size)) == size;
    }
  }

  // ------------------------------------------------- one market

  /** The ledger's holding, None when its size does not parse. */
  function LedgerHolding(ledger: Option<LedgerPosition>): Option<Holding> {
    if ledger.None? then Some(FLAT_HOLDING)
    else
      var p := ledger.value;
      if p.size.None? then None
      else Some(Holding(if p.side == Short then -p.size.value else p.size.value, PositivePrice(p.entryPrice)))
  }

  datatype Source = FromLedger | FromExecution

  /** One market of the composed book. `size` is unsigned. */
  datatype Row = Row(
    market: string,
    side: PositionSide,
    size: Option<real>,
    entryPrice: Option<real>,
    source: Source,
    ledger: Option<LedgerPosition>,
    pending: seq<Execution>)

  function LedgerRow(p: LedgerPosition): Row {
    Row(p.market, p.side, p.size, p.entryPrice, FromLedger, Some(p), [])
  }

  datatype ComposeResult = Unparsable | ComposedFlat | Composed(row: Row)

  /** composeProjectedPosition as a function of its arguments. */
  function Compose(ledger: Option<LedgerPosition>, pending: seq<Execution>): ComposeResult {
    var start := LedgerHolding(ledger);
    if start.None? || !Composable(pending) then Unparsable
    else
      var h := ApplyAll(start.value, pending);
      if h.signed == 0.0 then ComposedFlat
      else Composed(Row(RowMarket(ledger, pending), if h.signed < 0.0 then Short else Long,
                        Some(AbsReal(h.signed)), h.entry, FromExecution, ledger, pending))
  }

  function RowMarket(ledger: Option<LedgerPosition>, pending: seq<Execution>): string {
    if ledger.Some? && ledger.value.market != "" then ledger.value.market else FirstNamed(pending)
  }

  function FirstNamed(pending: seq<Execution>): string {
    if pending == [] then "" else if pending[0].market != "" then pending[0].market else FirstNamed(pending[1..])
  }

  lemma ComposableStep(pending: seq<Execution>)
    requires pending != []
    ensures Composable(pending) <==> SignedUnaccounted(pending[0]).Some? && Composable(pending[1..])
  {
  }

  /** composeProjectedPosition itself, accumulating quantity and entry in a loop. */
  method ComposeProjectedPosition(ledger: Option<LedgerPosition>, pending: seq<Execution>) returns (r: ComposeResult)
    ensures r == Compose(ledger, pending)
  {
    hide BlendedEntry, SignedUnaccounted;
    var signed, entry, market := 0.0, None, "";
    if ledger.Some? {
      market := ledger.value.market;
      if ledger.value.size.None? {
        return Unparsable;
      }
      signed := if ledger.value.side == Short then -ledger.value.size.value else ledger.value.size.value;
      entry := PositivePrice(ledger.value.entryPrice);
    }
    ghost var start := LedgerHolding(ledger).value;
    var i := 0;
    while i < |pending|
      invariant i <= |pending|
      invariant forall j :: 0 <= j < i ==> SignedUnaccounted(pending[j]).Some?
      invariant Composable(pending[i..]) <==> Composable(pending)
      invariant Composable(pending) ==> ApplyAll(Holding(signed, entry), pending[i..]) == ApplyAll(start, pending)
      invariant RowMarket(ledger, pending) == if market != "" then market else FirstNamed(pending[i..])
    {
      assert pending[i..][0] == pending[i] && pending[i..][1..] == pending[i + 1..];
      var delta := SignedUnaccounted(pending[i]);
      if delta.None? {
        return Unparsable;
      }
      if market == "" {
        market := pending[i].market;
      }
      var price := PositivePrice(pending[i].averagePrice);
      ComposableStep(pending[i..]);
      entry := BlendedEntry(signed, entry, delta.value, price);
      signed := signed + delta.value;
      i := i + 1;
    }
    assert pending[i..] == [];
    if signed == 0.0 {
      return ComposedFlat;
    }
    var side := if signed < 0.0 then Short else Long;
    r := Composed(Row(market, side, Some(AbsReal(signed)), entry, FromExecution, ledger, pending));
  }

  // ------------------------------------------------- the whole book

  /** The pending executions of one market, in listed order. */
  function PendingFor(pending: seq<Execution>, market: string): seq<Execution> {
    if pending == [] then []
    else
      var last := |pending| - 1;
      if pending[last].market == market then PendingFor(pending[..last], market) + [pending[last]]
      else PendingFor(pending[..last], market)
  }

  /** The rows the ledger's own positions give: none when the market composes flat. */
  function LedgerRows(positions: seq<LedgerPosition>, pending: seq<Execution>): seq<Row> {
    if positions == [] then []
    else
      var last := |positions| - 1;
      LedgerRows(positions[..last], pending) + RowsOf(positions[last], PendingFor(pending, positions[last].market))
  }

  function RowsOf(p: LedgerPosition, pending: seq<Execution>): seq<Row> {
    if pending == [] then [LedgerRow(p)]
    else
      match Compose(Some(p), pending)
      case Unparsable => [LedgerRow(p)]
      case ComposedFlat => []
      case Composed(row) => [row]
  }

  /** The rows of markets only the executions touch. */
  function OpenedRows(markets: seq<string>, pending: seq<Execution>): seq<Row> {
    if markets == [] then []
    else
      var last := |markets| - 1;
      var r := Compose(None, PendingFor(pending, markets[last]));
      OpenedRows(markets[..last], pending) + (if r.Composed? then [r.row] else [])
  }

  /** Byte-wise order of strings, as sort.Strings uses. */
  predicate Less(a: string, b: string) {
    b != "" && (a == "" || a[0] < b[0] || (a[0] == b[0] && Less(a[1..], b[1..])))
  }

  lemma {:induction false} LessIsStrictOrder(a: string, b: string, c: string)
    ensures !Less(a, a)
    ensures Less(a, b) && Less(b, c) ==> Less(a, c)
    ensures Less(a, b) || a == b || Less(b, a)
  {
    if a != "" && b != "" && a[0] == b[0] {
      assert a == [a[0]] + a[1..] && b == [b[0]] + b[1..];
    }
    if a != "" {
      LessIsStrictOrder(a[1..], if b == "" then "" else b[1..], if c == "" then "" else c[1..]);
    }
  }

  ghost predicate StrictlySorted(s: seq<string>) {
    forall i, j :: 0 <= i < j < |s| ==> Less(s[i], s[j])
  }

  /** Inserting a new string into a sorted sequence keeps it sorted. */
  method InsertSorted(s: seq<string>, x: string) returns (r: seq<string>)
    requires StrictlySorted(s) && x !in s
    ensures StrictlySorted(r) && (forall y :: y in r <==> y in s || y == x)
  {
    hide Less;
    var i := 0;
    while i < |s| && Less(s[i], x)
      invariant i <= |s|
      invariant forall j :: 0 <= j < i ==> Less(s[j], x)
    {
      i := i + 1;
    }
    r := s[..i] + [x] + s[i..];
    forall j | i <= j < |s|
      ensures Less(x, s[j])
    {
      LessIsStrictOrder(s[i], x, x);
      LessIsStrictOrder(x, s[i], s[j]);
    }
    assert forall y :: y in r <==> y in s || y == x by {
      assert s == s[..i] + s[i..];
    }
  }

  /** sort.Strings over a set of markets, visited in any order. */
  method SortMarkets(markets: set<string>) returns (sorted: seq<string>)
    ensures StrictlySorted(sorted) && (forall m :: m in sorted <==> m in markets)
  {
    var rest := markets;
    sorted := [];
    while rest != {}
      invariant rest <= markets && StrictlySorted(sorted)
      invariant forall m :: m in sorted <==> m in markets && m !in rest
      decreases rest
    {
      var m :| m in rest;
      sorted := InsertSorted(sorted, m);
      rest := rest - {m};
    }
  }

  /** A strictly sorted listing of a set is the only one: the map's iteration order cannot show. */
  lemma {:induction false} SortedUnique(a: seq<string>, b: seq<string>)
    requires StrictlySorted(a) && StrictlySorted(b) && forall m :: m in a <==> m in b
    ensures a == b
  {
    hide Less;
    assert a != [] ==> a[0] in a;
    assert b != [] ==> b[0] in b;
    if a != [] {
      assert a[0] in b && b[0] in a;
      var i :| 0 <= i < |b| && b[i] == a[0];
      var j :| 0 <= j < |a| && a[j] == b[0];
      LessIsStrictOrder(a[0], b[0], a[0]);
      LessIsStrictOrder(a[0], a[0], a[0]);
      assert i == 0 && j == 0;
      forall m
        ensures m in a[1..] <==> m in b[1..]
      {
        SortedTail(a, m);
        SortedTail(b, m);
      }
      SortedUnique(a[1..], b[1..]);
      assert a == [a[0]] + a[1..] && b == [b[0]] + b[1..];
    }
  }

  lemma SortedTail(a: seq<string>, m: string)
    requires StrictlySorted(a) && a != []
    ensures StrictlySorted(a[1..])
    ensures m in a[1..] <==> m in a && m != a[0]
  {
    hide Less;
    LessIsStrictOrder(m, m, m);
  }

  /** The grouping pass: executions by market, each group in listed order. */
  method GroupPending(pending: seq<Execution>) returns (groups: map<string, seq<Execution>>)
    ensures forall m :: m in groups <==> PendingFor(pending, m) != []
    ensures forall m :: m in groups ==> groups[m] == PendingFor(pending, m)
  {
    groups := map[];
    for i := 0 to |pending|
      invariant forall m :: m in groups <==> PendingFor(pending[..i], m) != []
      invariant forall m :: m in groups ==> groups[m] == PendingFor(pending[..i], m)
    {
      var e := pending[i];
      assert pending[..i + 1][..i] == pending[..i];
      groups := groups[e.market := (if e.market in groups then groups[e.market] else []) + [e]];
    }
    assert pending[..|pending|] == pending;
  }

  /** The book: the rows of the ledger's own markets in their order, then those of the added markets, sorted. */
  ghost predicate IsBook(positions: seq<LedgerPosition>, pending: seq<Execution>, out: seq<Row>, added: seq<string>) {
    && out == LedgerRows(positions, pending) + OpenedRows(added, pending)
    && StrictlySorted(added)
    && forall m :: m in added <==>
         PendingFor(pending, m) != [] && forall i :: 0 <= i < |positions| ==> positions[i].market != m
  }

  /**
   * ProjectedPositions: the ledger's markets that do not compose flat, in
   * ledger order, then the markets the executions opened, in market order.
   */
  method ProjectedPositions(positions: seq<LedgerPosition>, pending: seq<Execution>)
    returns (out: seq<Row>, added: seq<string>)
    ensures IsBook(positions, pending, out, added)
  {
    hide Compose, PendingFor, Less;
    var groups := GroupPending(pending);
    out := [];
    var seen: set<string> := {};
    for i := 0 to |positions|
      invariant out == LedgerRows(positions[..i], pending)
      invariant forall m :: m in seen <==> exists j :: 0 <= j < i && positions[j].market == m
    {
      var p := positions[i];
      assert positions[..i + 1][..i] == positions[..i];
      seen := seen + {p.market};
      var mine := if p.market in groups then groups[p.market] else [];
      assert mine == PendingFor(pending, p.market);
      if mine == [] {
        out := out + [LedgerRow(p)];
      } else {
        var c := ComposeProjectedPosition(Some(p), mine);
        match c
        case Unparsable => out := out + [LedgerRow(p)];
        case ComposedFlat =>
        case Composed(row) => out := out + [row];
      }
    }
    assert positions[..|positions|] == positions;
    var markets := SortMarkets(set m | m in groups && m !in seen);
    var rows := OpenMarkets(markets, groups, pending);
    out, added := out + rows, markets;
  }

  /** The rows of the sorted markets only the executions touch. */
  method OpenMarkets(
    markets: seq<string>, groups: map<string, seq<Execution>>, ghost pending: seq<Execution>)
    returns (rows: seq<Row>)
    requires forall m :: m in markets ==> m in groups && groups[m] == PendingFor(pending, m)
    ensures rows == OpenedRows(markets, pending)
  {
    hide Compose, PendingFor;
    rows := [];
    for i := 0 to |markets|
      invariant rows == OpenedRows(markets[..i], pending)
    {
      assert markets[..i + 1][..i] == markets[..i];
      assert markets[i] in markets;
      var c := ComposeProjectedPosition(None, groups[markets[i]]);
      if c.Composed? {
        rows := rows + [c.row];
      }
    }
    assert markets[..|markets|] == markets;
  }

  /** The signed quantity a row shows. */
  ghost function RowSigned(row: Row): real
    requires row.size.Some?
  {
    SignedOf(row.side, row.size.value)
  }

  lemma {:induction false} PendingForMarket(pending: seq<Execution>, market: string)
    ensures forall i :: 0 <= i < |PendingFor(pending, market)| ==> PendingFor(pending, market)[i].market == market
  {
    if pending != [] { PendingForMarket(pending[..|pending| - 1], market); }
  }

  /**
   * What one ledger market shows, whatever the order of its executions: its
   * own row when nothing is pending or something cannot be read, nothing when
   * ledger plus executions is exactly zero, and otherwise exactly that sum.
   */
  lemma LedgerMarketReads(p: LedgerPosition, pending: seq<Execution>, reordered: seq<Execution>)
    requires multiset(pending) == multiset(reordered)
    ensures var rows := RowsOf(p, reordered);
            if pending == [] || p.size.None? || !Composable(pending) then rows == [LedgerRow(p)]
            else
              var total := SignedOf(p.side, p.size.value) + SumDeltas(pending);
              if total == 0.0 then rows == []
              else |rows| == 1 && rows[0].size.Some? && RowSigned(rows[0]) == total && rows[0].size.value > 0.0
  {
    SameElements(pending, reordered);
    if p.size.Some? && Composable(pending) {
      SumIgnoresOrder(pending, reordered);
      AppliedQuantity(LedgerHolding(Some(p)).value, reordered);
    }
  }

  /** The same for a market only the executions touch: absent when unreadable or flat. */
  lemma OpenedMarketReads(pending: seq<Execution>, reordered: seq<Execution>)
    requires multiset(pending) == multiset(reordered)
    ensures var r := Compose(None, reordered);
            if !Composable(pending) then r == Unparsable
            else if SumDeltas(pending) == 0.0 then r == ComposedFlat
            else r.Composed? && r.row.size.Some? && RowSigned(r.row) == SumDeltas(pending)
  {
    SameElements(pending, reordered);
    if Composable(pending) {
      SumIgnoresOrder(pending, reordered);
      AppliedQuantity(FLAT_HOLDING, reordered);
    }
  }

  // ------------------------------------------------- order of the pending list

  lemma {:induction false} NamedByMarket(pending: seq<Execution>, market: string)
    requires forall i :: 0 <= i < |pending| ==> pending[i].market == market
    ensures pending != [] ==> FirstNamed(pending) == market
  {
    if pending != [] {
      NamedByMarket(pending[1..], market);
    }
  }

  lemma {:induction false} PendingForCounts(pending: seq<Execution>, market: string, e: Execution)
    ensures multiset(PendingFor(pending, market))[e] == if e.market == market then multiset(pending)[e] else 0
  {
    if pending != [] {
      var last := |pending| - 1;
      assert pending == pending[..last] + [pending[last]];
      PendingForCounts(pending[..last], market, e);
    }
  }

  lemma PendingForIgnoresOrder(pending: seq<Execution>, reordered: seq<Execution>, market: string)
    requires multiset(pending) == multiset(reordered)
    ensures multiset(PendingFor(pending, market)) == multiset(PendingFor(reordered, market))
  {
    forall e: Execution
      ensures multiset(PendingFor(pending, market))[e] == multiset(PendingFor(reordered, market))[e]
    {
      PendingForCounts(pending, market, e);
      PendingForCounts(reordered, market, e);
    }
  }

  /** What a reader of the book sees of a row besides its entry price and provenance. */
  ghost function Shape(r: Row): (string, PositionSide, Option<real>) { (r.market, r.side, r.size) }

  ghost function Shapes(rows: seq<Row>): seq<(string, PositionSide, Option<real>)> {
    seq(|rows|, i requires 0 <= i < |rows| => Shape(rows[i]))
  }

  lemma MarketIgnoresOrder(p: LedgerPosition, pending: seq<Execution>, reordered: seq<Execution>)
    requires multiset(pending) == multiset(reordered)
    ensures Shapes(RowsOf(p, PendingFor(pending, p.market))) == Shapes(RowsOf(p, PendingFor(reordered, p.market)))
  {
    var a, b := PendingFor(pending, p.market), PendingFor(reordered, p.market);
    PendingForMarket(pending, p.market);
    PendingForMarket(reordered, p.market);
    NamedByMarket(a, p.market);
    NamedByMarket(b, p.market);
    PendingForIgnoresOrder(pending, reordered, p.market);
    LedgerMarketReads(p, a, a);
    LedgerMarketReads(p, a, b);
  }

  lemma OpenedIgnoresOrder(market: string, pending: seq<Execution>, reordered: seq<Execution>)
    requires multiset(pending) == multiset(reordered)
    ensures var r, q := Compose(None, PendingFor(pending, market)), Compose(None, PendingFor(reordered, market));
            (r.Composed? <==> q.Composed?) && (r.Composed? ==> Shape(r.row) == Shape(q.row))
  {
    var a, b := PendingFor(pending, market), PendingFor(reordered, market);
    PendingForMarket(pending, market);
    PendingForMarket(reordered, market);
    NamedByMarket(a, market);
    NamedByMarket(b, market);
    PendingForIgnoresOrder(pending, reordered, market);
    SameElements(a, b);
    OpenedMarketReads(a, a);
    OpenedMarketReads(a, b);
  }

  /** Two books over one ledger and the same executions in any order show the same markets, sides and sizes. */
  lemma BookIgnoresOrder(
    positions: seq<LedgerPosition>, pending: seq<Execution>, out: seq<Row>, added: seq<string>,
    reordered: seq<Execution>, other: seq<Row>, markets: seq<string>)
    requires multiset(pending) == multiset(reordered)
    requires IsBook(positions, pending, out, added) && IsBook(positions, reordered, other, markets)
    ensures added == markets && Shapes(out) == Shapes(other)
    ensures pending == reordered ==> out == other
  {
    hide PendingFor, LedgerRows, OpenedRows, StrictlySorted, Shapes;
    forall m
      ensures m in added <==> m in markets
    {
      PendingForIgnoresOrder(pending, reordered, m);
      assert |multiset(PendingFor(pending, m))| == |PendingFor(pending, m)|;
      assert |multiset(PendingFor(reordered, m))| == |PendingFor(reordered, m)|;
    }
    SortedUnique(added, markets);
    LedgerRowsIgnoreOrder(positions, pending, reordered);
    OpenedRowsIgnoreOrder(markets, pending, reordered);
    ShapesSplit(LedgerRows(positions, pending), OpenedRows(markets, pending));
    ShapesSplit(LedgerRows(positions, reordered), OpenedRows(markets, reordered));
  }

  lemma ShapesSplit(a: seq<Row>, b: seq<Row>)
    ensures Shapes(a + b) == Shapes(a) + Shapes(b)
  {
  }

  lemma {:induction false} LedgerRowsIgnoreOrder(
    positions: seq<LedgerPosition>, pending: seq<Execution>, reordered: seq<Execution>)
    requires multiset(pending) == multiset(reordered)
    ensures Shapes(LedgerRows(positions, pending)) == Shapes(LedgerRows(positions, reordered))
  {
    hide RowsOf, PendingFor, Shapes;
    if positions != [] {
      var last := |positions| - 1;
      var p := positions[last];
      LedgerRowsIgnoreOrder(positions[..last], pending, reordered);
      MarketIgnoresOrder(p, pending, reordered);
      ShapesSplit(LedgerRows(positions[..last], pending), RowsOf(p, PendingFor(pending, p.market)));
      ShapesSplit(LedgerRows(positions[..last], reordered), RowsOf(p, PendingFor(reordered, p.market)));
    }
  }

  lemma {:induction false} OpenedRowsIgnoreOrder(
    markets: seq<string>, pending: seq<Execution>, reordered: seq<Execution>)
    requires multiset(pending) == multiset(reordered)
    ensures Shapes(OpenedRows(markets, pending)) == Shapes(OpenedRows(markets, reordered))
  {
    hide Compose, PendingFor;
    if markets != [] {
      var last := |markets| - 1;
      OpenedRowsIgnoreOrder(markets[..last], pending, reordered);
      OpenedIgnoresOrder(markets[last], pending, reordered);
      var r, q := Compose(None, PendingFor(pending, markets[last])), Compose(None, PendingFor(reordered, markets[last]));
      ShapesSplit(OpenedRows(markets[..last], pending), if r.Composed? then [r.row] else []);
      ShapesSplit(OpenedRows(markets[..last], reordered), if q.Composed? then [q.row] else []);
    }
  }
}
