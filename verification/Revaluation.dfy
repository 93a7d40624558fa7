/**
 * Client-side re-marking of a projected row (revalue.go). Every figure is a
 * decimal text; the laws are about the numbers those texts denote and, for
 * composition, about the texts themselves.
 */
module Revaluation {
  import opened Text
  import opened Decimals

  datatype PositionValue = PositionValue(
    market: string,
    side: string,
    size: string,
    entryPrice: string,
    markPrice: Option<string>,
    unrealizedPnl: Option<string>,
    valueUsd: Option<string>)

  datatype ProjectedPnl = ProjectedPnl(status: string, pnlUsd: Option<string>)

  datatype ProjectedValuation = ProjectedValuation(
    path: string,
    pricingMode: string,
    midsComplete: Option<bool>,
    equity: Option<string>,
    realizedValue: Option<string>,
    unrealizedValue: Option<string>,
    positions: seq<PositionValue>,
    pnl: Option<ProjectedPnl>,
    volume: Option<string>)

  type Mids = map<string, string>

  function ParseDecPtr(raw: Option<string>): Option<Dec> {
    if raw.None? then None else ParseDec(raw.value)
  }

  /** The signed quantity: the side fixes the sign, an unknown side keeps the text's own. */
  function SignedSize(side: string, size: Dec): Dec {
    if side == "short" then size.Magnitude().Neg()
    else if side == "long" then size.Magnitude()
    else size
  }

  datatype Remark = Kept | Remarked(pnl: Dec, shift: Dec)

  /** The P&L at a new mid and the change from the delivered one, from the numbers read. */
  function PnlAt(mid: Dec, signed: Dec, mark: Option<Dec>, was: Option<Dec>, entry: Option<Dec>): Remark {
    if mark.Some? && was.Some? then
      var shift := signed.Mul(mid.Sub(mark.value));
      Remarked(was.value.Add(shift), shift)
    else if entry.None? then Kept
    else
      var pnl := signed.Mul(mid.Sub(entry.value));
      Remarked(pnl, pnl.Sub(if was.Some? then was.value else Dec(0, 0)))
  }

  function RemarkPnl(p: PositionValue, mids: Mids): Remark {
    if p.market !in mids then Kept
    else
      var mid, size := ParseDec(mids[p.market]), ParseDec(p.size);
      if mid.None? || size.None? then Kept
      else PnlAt(mid.value, SignedSize(p.side, size.value),
                 ParseDecPtr(p.markPrice), ParseDecPtr(p.unrealizedPnl), ParseDec(p.entryPrice))
  }

  /** The position after re-marking: unchanged when it cannot be re-marked. */
  function RemarkPosition(p: PositionValue, mids: Mids): PositionValue {
    match RemarkPnl(p, mids)
    case Kept => p
    case Remarked(pnl, _) =>
      assert p.market in mids;
      p.(markPrice := Some(mids[p.market]),
         unrealizedPnl := Some(pnl.String()),
         valueUsd := Some(pnl.String()))
  }

  function RemarkPositions(ps: seq<PositionValue>, mids: Mids): seq<PositionValue> {
    seq(|ps|, i requires 0 <= i < |ps| => RemarkPosition(ps[i], mids))
  }

  function Shifts(ps: seq<PositionValue>, mids: Mids): Dec {
    if ps == [] then Dec(0, 0)
    else
      var rest, last := ps[..|ps| - 1], ps[|ps| - 1];
      match RemarkPnl(last, mids)
      case Kept => Shifts(rest, mids)
      case Remarked(_, shift) => Shifts(rest, mids).Add(shift)
  }

  predicate AnyMoved(ps: seq<PositionValue>, mids: Mids) {
    exists i :: 0 <= i < |ps| && RemarkPnl(ps[i], mids).Remarked?
  }

  predicate AllMarked(ps: seq<PositionValue>, mids: Mids) {
    forall i :: 0 <= i < |ps| ==> RemarkPnl(ps[i], mids).Remarked? || ps[i].markPrice.Some?
  }

  function Shifted(raw: Option<string>, shift: Dec): Option<string> {
    var d := ParseDecPtr(raw);
    if d.None? then raw else Some(d.value.Add(shift).String())
  }

  function ShiftedPnl(pnl: Option<ProjectedPnl>, shift: Dec): Option<ProjectedPnl> {
    if pnl.Some? && pnl.value.status != "pending" then
      Some(pnl.value.(pnlUsd := Shifted(pnl.value.pnlUsd, shift)))
    else pnl
  }

  /** The row RevalueProjectedValuation returns. */
  function Revalue(v: ProjectedValuation, mids: Mids): ProjectedValuation {
    if v.pricingMode == "server" || !AnyMoved(v.positions, mids) then v
    else
      var shift := Shifts(v.positions, mids);
      v.(positions := RemarkPositions(v.positions, mids),
         equity := Shifted(v.equity, shift),
         unrealizedValue := Shifted(v.unrealizedValue, shift),
         midsComplete := if v.midsComplete == Some(false) && AllMarked(v.positions, mids) then None else v.midsComplete,
         pnl := ShiftedPnl(v.pnl, shift))
  }

  /** The pass over the positions: the re-marked rows, the accumulated shift and the two flags. */
  method RemarkAll(ps: seq<PositionValue>, mids: Mids)
    returns (positions: seq<PositionValue>, shift: Dec, moved: bool, allMarked: bool)
    ensures positions == RemarkPositions(ps, mids) && shift == Shifts(ps, mids)
    ensures moved <==> AnyMoved(ps, mids)
    ensures allMarked <==> AllMarked(ps, mids)
  {
    hide RemarkPnl, RemarkPosition;
    positions, shift, moved, allMarked := [], Dec(0, 0), false, true;
    for i := 0 to |ps|
      invariant positions == RemarkPositions(ps[..i], mids)
      invariant shift == Shifts(ps[..i], mids)
      invariant moved <==> exists j :: 0 <= j < i && RemarkPnl(ps[j], mids).Remarked?
      invariant allMarked <==> forall j :: 0 <= j < i ==> RemarkPnl(ps[j], mids).Remarked? || ps[j].markPrice.Some?
    {
      assert ps[..i + 1][..i] == ps[..i] && ps[..i + 1][i] == ps[i];
      var r := RemarkPnl(ps[i], mids);
      if r.Kept? {
        if ps[i].markPrice.None? {
          allMarked := false;
        }
      } else {
        moved := true;
        shift := shift.Add(r.shift);
      }
      positions := positions + [RemarkPosition(ps[i], mids)];
    }
    assert ps[..|ps|] == ps;
  }

  /** RevalueProjectedValuation itself. */
  method RevalueProjectedValuation(v: ProjectedValuation, mids: Mids) returns (out: ProjectedValuation)
    ensures out == Revalue(v, mids)
    ensures RowMoves(v, mids, out)
  {
    RevalueReads(v, mids);
    hide RowMoves;
    if v.pricingMode == "server" || |v.positions| == 0 {
      return v;
    }
    var positions, shift, moved, allMarked := RemarkAll(v.positions, mids);
    if !moved {
      return v;
    }
    out := v.(positions := positions, equity := Shifted(v.equity, shift), unrealizedValue := Shifted(v.unrealizedValue, shift));
    if v.midsComplete.Some? && !v.midsComplete.value && allMarked {
      out := out.(midsComplete := None);
    }
    if v.pnl.Some? && v.pnl.value.status != "pending" && ParseDecPtr(v.pnl.value.pnlUsd).Some? {
      out := out.(pnl := Some(v.pnl.value.(pnlUsd := Shifted(v.pnl.value.pnlUsd, shift))));
    }
  }

  // ------------------------------------------------- conservation

  /** The P&L a position's text carries; a missing or unreadable figure counts for nothing. */
  ghost function PnlOf(p: PositionValue): real {
    var d := ParseDecPtr(p.unrealizedPnl);
    if d.Some? then d.value.Value() else 0.0
  }

  ghost function TotalPnl(ps: seq<PositionValue>): real {
    if ps == [] then 0.0 else TotalPnl(ps[..|ps| - 1]) + PnlOf(ps[|ps| - 1])
  }

  lemma ZeroValue()
    ensures Dec(0, 0).Value() == 0.0
  {
  }

  lemma PnlAtShifts(mid: Dec, signed: Dec, mark: Option<Dec>, was: Option<Dec>, entry: Option<Dec>)
    ensures match PnlAt(mid, signed, mark, was, entry)
            case Kept => true
            case Remarked(pnl, shift) =>
              pnl.Value() == (if was.Some? then was.value.Value() else 0.0) + shift.Value()
  {
    match PnlAt(mid, signed, mark, was, entry)
    case Kept =>
    case Remarked(pnl, shift) =>
      ZeroValue();
      if was.Some? { AddValue(was.value, shift); SubValue(pnl, was.value); }
      SubValue(pnl, Dec(0, 0));
  }

  lemma RemarkShifts(p: PositionValue, mids: Mids)
    ensures RemarkPnl(p, mids).Remarked? ==>
              PnlOf(RemarkPosition(p, mids)) == PnlOf(p) + RemarkPnl(p, mids).shift.Value()
  {
    var r := RemarkPnl(p, mids);
    if r.Remarked? {
      PnlAtShifts(ParseDec(mids[p.market]).value, SignedSize(p.side, ParseDec(p.size).value),
                  ParseDecPtr(p.markPrice), ParseDecPtr(p.unrealizedPnl), ParseDec(p.entryPrice));
      ParsePrintedValue(r.pnl);
      assert RemarkPosition(p, mids).unrealizedPnl == Some(r.pnl.String());
    }
  }

  lemma {:induction false} ShiftsSum(ps: seq<PositionValue>, mids: Mids)
    ensures TotalPnl(RemarkPositions(ps, mids)) == TotalPnl(ps) + Shifts(ps, mids).Value()
  {
    if ps == [] {
      ZeroValue();
    } else {
      var rest, last := ps[..|ps| - 1], ps[|ps| - 1];
      var qs := RemarkPositions(ps, mids);
      assert qs[..|qs| - 1] == RemarkPositions(rest, mids);
      ShiftsSum(rest, mids);
      RemarkShifts(last, mids);
      if RemarkPnl(last, mids).Remarked? {
        AddValue(Shifts(rest, mids), RemarkPnl(last, mids).shift);
      }
    }
  }

  lemma {:induction false} NothingMoved(ps: seq<PositionValue>, mids: Mids)
    requires !AnyMoved(ps, mids)
    ensures RemarkPositions(ps, mids) == ps && Shifts(ps, mids) == Dec(0, 0)
  {
    if ps != [] {
      var rest := ps[..|ps| - 1];
      assert forall i :: 0 <= i < |rest| ==> rest[i] == ps[i];
      assert RemarkPnl(ps[|ps| - 1], mids).Kept?;
      NothingMoved(rest, mids);
    }
  }

  lemma ShiftedValue(raw: Option<string>, shift: Dec)
    ensures ParseDecPtr(raw).None? ==> Shifted(raw, shift) == raw
    ensures ParseDecPtr(raw).Some? ==>
              && ParseDecPtr(Shifted(raw, shift)).Some?
              && ParseDecPtr(Shifted(raw, shift)).value.Value() == ParseDecPtr(raw).value.Value() + shift.Value()
  {
    var d := ParseDecPtr(raw);
    if d.Some? {
      ParsePrintedValue(d.value.Add(shift));
      AddValue(d.value, shift);
    }
  }

  /** A figure moved by exactly `shift`, or was not a number and stayed as it was. */
  ghost predicate MovedBy(before: Option<string>, after: Option<string>, shift: real) {
    if ParseDecPtr(before).None? then after == before
    else ParseDecPtr(after).Some? && ParseDecPtr(after).value.Value() == ParseDecPtr(before).value.Value() + shift
  }

  /**
   * Re-marking conserves: equity, unrealized value and a settled windowed P&L
   * each move by exactly the change in the positions' own P&L, whatever the
   * row and the mids; realized value and volume never move.
   */
  lemma RevalueConserves(v: ProjectedValuation, mids: Mids)
    ensures var out := Revalue(v, mids);
            var change := TotalPnl(out.positions) - TotalPnl(v.positions);
            && MovedBy(v.equity, out.equity, change)
            && MovedBy(v.unrealizedValue, out.unrealizedValue, change)
            && (v.pnl.Some? ==> out.pnl.Some? && out.pnl.value.status == v.pnl.value.status)
            && (v.pnl.Some? && v.pnl.value.status != "pending" ==>
                  MovedBy(v.pnl.value.pnlUsd, out.pnl.value.pnlUsd, change))
            && (v.pnl.Some? && v.pnl.value.status == "pending" ==> out.pnl == v.pnl)
            && out.realizedValue == v.realizedValue && out.volume == v.volume
            && |out.positions| == |v.positions|
  {
    if v.pricingMode != "server" && AnyMoved(v.positions, mids) {
      var shift := Shifts(v.positions, mids);
      ShiftsSum(v.positions, mids);
      ShiftedValue(v.equity, shift);
      ShiftedValue(v.unrealizedValue, shift);
      if v.pnl.Some? {
        ShiftedValue(v.pnl.value.pnlUsd, shift);
      }
    }
  }

  // ------------------------------------------------- what a re-mark shows

  ghost function Magnitude(x: real): real { if x < 0.0 then -x else x }

  /** The quantity a side and a size stand for: a long counts up, a short counts down, anything else as written. */
  ghost function Quantity(side: string, size: real): real {
    if side == "long" then Magnitude(size) else if side == "short" then -Magnitude(size) else size
  }

  /** What a quantity gains when the price moves. */
  ghost function Gain(quantity: real, from: real, to: real): real { quantity * (to - from) }

  /** The number a text denotes. */
  ghost function NumberIn(raw: Option<string>): Option<real> {
    if raw.Some? && ParseDec(raw.value).Some? then Some(ParseDec(raw.value).value.Value()) else None
  }

  ghost function MidFor(p: PositionValue, mids: Mids): Option<real> {
    if p.market in mids then NumberIn(Some(mids[p.market])) else None
  }

  /**
   * The P&L of a position at its mid, when it can be re-marked: the P&L shown
   * plus the quantity times the move from the mark shown, or without those the
   * quantity times the move from the entry.
   */
  ghost function PnlAtMid(p: PositionValue, mids: Mids): Option<real> {
    var mid, size := MidFor(p, mids), NumberIn(Some(p.size));
    var mark, was, entry := NumberIn(p.markPrice), NumberIn(p.unrealizedPnl), NumberIn(Some(p.entryPrice));
    if mid.None? || size.None? then None
    else if mark.Some? && was.Some? then Some(was.value + Gain(Quantity(p.side, size.value), mark.value, mid.value))
    else if entry.Some? then Some(Gain(Quantity(p.side, size.value), entry.value, mid.value))
    else None
  }

  /** A position before and after: the mid as its mark and the P&L there, or exactly as it was. */
  ghost predicate PositionMoves(p: PositionValue, mids: Mids, q: PositionValue) {
    var pnl := PnlAtMid(p, mids);
    if pnl.None? then q == p
    else
      && p.market in mids && q.markPrice == Some(mids[p.market])
      && NumberIn(q.unrealizedPnl) == pnl && q.valueUsd == q.unrealizedPnl
      && q == p.(markPrice := q.markPrice, unrealizedPnl := q.unrealizedPnl, valueUsd := q.valueUsd)
  }

  /** Under server pricing nothing moves; otherwise every position is at its mid. */
  ghost predicate PositionsMove(v: ProjectedValuation, mids: Mids, out: ProjectedValuation) {
    && |out.positions| == |v.positions|
    && if v.pricingMode == "server" then out == v
       else forall i :: 0 <= i < |v.positions| ==> PositionMoves(v.positions[i], mids, out.positions[i])
  }

  /** Both totals move by the change in the positions' P&L. */
  ghost predicate TotalsMove(v: ProjectedValuation, out: ProjectedValuation) {
    var change := TotalPnl(out.positions) - TotalPnl(v.positions);
    MovedBy(v.equity, out.equity, change) && MovedBy(v.unrealizedValue, out.unrealizedValue, change)
  }

  ghost predicate SomeAtMid(ps: seq<PositionValue>, mids: Mids) {
    exists i :: 0 <= i < |ps| && PnlAtMid(ps[i], mids).Some?
  }

  ghost predicate AllShowMark(ps: seq<PositionValue>) { forall i :: 0 <= i < |ps| ==> ps[i].markPrice.Some? }

  /** The incomplete flag is lifted exactly when something was re-marked and every position then shows a mark. */
  ghost predicate FlagMoves(v: ProjectedValuation, mids: Mids, out: ProjectedValuation) {
    out.midsComplete ==
      if v.midsComplete == Some(false) && v.pricingMode != "server" && SomeAtMid(v.positions, mids) && AllShowMark(out.positions)
      then None
      else v.midsComplete
  }

  /** A row before and after a re-mark. */
  ghost predicate RowMoves(v: ProjectedValuation, mids: Mids, out: ProjectedValuation) {
    PositionsMove(v, mids, out) && TotalsMove(v, out) && FlagMoves(v, mids, out)
  }

  lemma SignedSizeValue(side: string, size: Dec)
    ensures SignedSize(side, size).Value() == Quantity(side, size.Value())
  {
    MagnitudeValue(size);
    NegValue(size.Magnitude());
    hide Dec.Magnitude, Dec.Neg;
  }

  lemma RemarkReads(p: PositionValue, mids: Mids)
    ensures RemarkPnl(p, mids).Remarked? <==> PnlAtMid(p, mids).Some?
    ensures RemarkPnl(p, mids).Remarked? ==> Some(RemarkPnl(p, mids).pnl.Value()) == PnlAtMid(p, mids)
  {
    hide ParseDec, SignedSize, Dec.Value, Dec.Add, Dec.Sub, Dec.Mul, Quantity;
    var r := RemarkPnl(p, mids);
    if r.Remarked? {
      var mid, size := ParseDec(mids[p.market]).value, ParseDec(p.size).value;
      var mark, was, entry := ParseDecPtr(p.markPrice), ParseDecPtr(p.unrealizedPnl), ParseDec(p.entryPrice);
      SignedSizeValue(p.side, size);
      ghost var q := Quantity(p.side, size.Value());
      assert r == PnlAt(mid, SignedSize(p.side, size), mark, was, entry);
      PnlAtValue(mid, SignedSize(p.side, size), mark, was, entry);
      hide PnlAt;
      var (base, from) := Basis(mark, was, entry);
      assert r.pnl.Value() == base + Gain(q, from, mid.Value());
      hide Gain;
    }
  }

  lemma PositionReads(p: PositionValue, mids: Mids)
    ensures PositionMoves(p, mids, RemarkPosition(p, mids))
  {
    RemarkReads(p, mids);
    hide PnlAtMid, Dec.Value, Dec.String;
    var r := RemarkPnl(p, mids);
    if r.Remarked? {
      ParsePrintedValue(r.pnl);
      hide ParseDec;
    }
  }

  lemma MarksRead(ps: seq<PositionValue>, mids: Mids)
    ensures AllMarked(ps, mids) <==> AllShowMark(RemarkPositions(ps, mids))
    ensures AnyMoved(ps, mids) <==> SomeAtMid(ps, mids)
  {
    hide RemarkPnl, PnlAtMid;
    var qs := RemarkPositions(ps, mids);
    forall i | 0 <= i < |ps|
      ensures RemarkPnl(ps[i], mids).Remarked? <==> PnlAtMid(ps[i], mids).Some?
      ensures qs[i].markPrice.Some? <==> RemarkPnl(ps[i], mids).Remarked? || ps[i].markPrice.Some?
    {
      RemarkReads(ps[i], mids);
      assert qs[i] == RemarkPosition(ps[i], mids);
    }
    hide RemarkPosition, RemarkPositions;
  }

  lemma PositionsRead(v: ProjectedValuation, mids: Mids)
    ensures PositionsMove(v, mids, Revalue(v, mids))
  {
    hide RemarkPnl, PositionMoves, AllMarked;
    forall i | 0 <= i < |v.positions|
      ensures PositionMoves(v.positions[i], mids, RemarkPosition(v.positions[i], mids))
    {
      PositionReads(v.positions[i], mids);
    }
    if !AnyMoved(v.positions, mids) {
      NothingMoved(v.positions, mids);
      assert forall i :: 0 <= i < |v.positions| ==> RemarkPositions(v.positions, mids)[i] == v.positions[i];
    }
    hide RemarkPosition, AnyMoved;
  }

  lemma FlagReads(v: ProjectedValuation, mids: Mids)
    ensures FlagMoves(v, mids, Revalue(v, mids))
  {
    MarksRead(v.positions, mids);
    hide AllMarked, AnyMoved, SomeAtMid, AllShowMark, Shifts, RemarkPositions;
  }

  lemma RevalueReads(v: ProjectedValuation, mids: Mids)
    ensures RowMoves(v, mids, Revalue(v, mids))
  {
    hide Revalue, PositionsMove, FlagMoves, MovedBy, TotalPnl;
    RevalueConserves(v, mids);
    PositionsRead(v, mids);
    FlagReads(v, mids);
  }

  /**
   * Two marked at 100 with no P&L, re-marked at 110: a long gains 20, a short
   * loses 20, and an equity of 100 follows.
   */
  method WorkedRow(side: string) returns (out: ProjectedValuation)
    requires side == "long" || side == "short"
    ensures |out.positions| == 1 && out.positions[0].markPrice == Some("110")
    ensures NumberIn(out.positions[0].unrealizedPnl) == Some(if side == "long" then 20.0 else -20.0)
    ensures NumberIn(out.equity) == Some(if side == "long" then 120.0 else 80.0)
  {
    var p := PositionValue("BTC", side, "2", "100", Some("100"), Some("0"), Some("0"));
    var v := ProjectedValuation("/x", "client", None, Some("100"), None, None, [p], None, None);
    out := RevalueProjectedValuation(v, map["BTC" := "110"]);
    WorkedNumbers();
    assert v.positions[0] == p;
    hide NumberIn, MovedBy;
    assert PnlAtMid(p, map["BTC" := "110"]) == Some(if side == "long" then 20.0 else -20.0);
    assert PositionMoves(p, map["BTC" := "110"], out.positions[0]);
    WorkedTotals(v, out, if side == "long" then 20.0 else -20.0);
  }

  lemma WorkedNumbers()
    ensures NumberIn(Some("0")) == Some(0.0) && NumberIn(Some("2")) == Some(2.0)
    ensures NumberIn(Some("100")) == Some(100.0) && NumberIn(Some("110")) == Some(110.0)
  {
    OneDigit('0');
    OneDigit('2');
    ToNatOf('1', '0', '0');
    ToNatOf('1', '1', '0');
    DigitsRead("100");
    DigitsRead("110");
    hide ParseDec;
  }

  lemma WorkedTotals(v: ProjectedValuation, out: ProjectedValuation, pnl: real)
    requires |v.positions| == |out.positions| == 1 && TotalsMove(v, out)
    requires NumberIn(v.positions[0].unrealizedPnl) == Some(0.0) && NumberIn(out.positions[0].unrealizedPnl) == Some(pnl)
    requires NumberIn(v.equity) == Some(100.0)
    ensures NumberIn(out.equity) == Some(100.0 + pnl)
  {
    hide ParseDec;
    assert v.positions[..0] == [] && out.positions[..0] == [];
    assert TotalPnl(v.positions) == PnlOf(v.positions[0]) && TotalPnl(out.positions) == PnlOf(out.positions[0]);
  }

  // ------------------------------------------------- composition

  /** A mid is given for the position's market and is not a number. */
  predicate Unreadable(p: PositionValue, mids: Mids) { p.market in mids && ParseDec(mids[p.market]).None? }

  lemma Telescope(base: real, s: real, a: real, b: real, c: real)
    ensures (base + s * (b - a)) + s * (c - b) == base + s * (c - a)
  {
  }

  /** What a re-mark starts from: the delivered P&L at its mark, or nothing at the entry. */
  ghost function Basis(mark: Option<Dec>, was: Option<Dec>, entry: Option<Dec>): (real, real) {
    if mark.Some? && was.Some? then (was.value.Value(), mark.value.Value())
    else (0.0, if entry.Some? then entry.value.Value() else 0.0)
  }

  lemma PnlAtValue(mid: Dec, signed: Dec, mark: Option<Dec>, was: Option<Dec>, entry: Option<Dec>)
    requires PnlAt(mid, signed, mark, was, entry).Remarked?
    ensures var (base, from) := Basis(mark, was, entry);
            PnlAt(mid, signed, mark, was, entry).pnl.Value() == base + signed.Value() * (mid.Value() - from)
  {
    if mark.Some? && was.Some? {
      SubValue(mid, mark.value);
      MulValue(signed, mid.Sub(mark.value));
      AddValue(was.value, signed.Mul(mid.Sub(mark.value)));
    } else {
      SubValue(mid, entry.value);
      MulValue(signed, mid.Sub(entry.value));
    }
  }

  /** Moving the mark in two steps reaches the P&L of one step, from a mark or from an entry. */
  lemma PnlTelescopes(
    mid1: Dec, mid2: Dec, signed: Dec, mark: Option<Dec>, was: Option<Dec>, entry: Option<Dec>, now: Dec)
    requires PnlAt(mid1, signed, mark, was, entry).Remarked?
    requires now.Value() == PnlAt(mid1, signed, mark, was, entry).pnl.Value()
    ensures PnlAt(mid2, signed, mark, was, entry).Remarked?
    ensures PnlAt(mid2, signed, Some(mid1), Some(now), entry).pnl.Value()
         == PnlAt(mid2, signed, mark, was, entry).pnl.Value()
  {
    hide PnlAt, Dec.Value;
    StaysRemarked(mid1, mid2, signed, mark, was, entry, now);
    var (base, from) := Basis(mark, was, entry);
    ghost var s, b, c := signed.Value(), mid1.Value(), mid2.Value();
    ghost var one := PnlAt(mid2, signed, mark, was, entry).pnl.Value();
    ghost var two := PnlAt(mid2, signed, Some(mid1), Some(now), entry).pnl.Value();
    assert Basis(Some(mid1), Some(now), entry) == (now.Value(), b);
    hide Basis;
    assert now.Value() == base + s * (b - from) by { PnlAtValue(mid1, signed, mark, was, entry); }
    assert one == base + s * (c - from) by { PnlAtValue(mid2, signed, mark, was, entry); }
    assert two == now.Value() + s * (c - b) by { PnlAtValue(mid2, signed, Some(mid1), Some(now), entry); }
    Telescope(base, s, from, b, c);
  }

  lemma StaysRemarked(
    mid1: Dec, mid2: Dec, signed: Dec, mark: Option<Dec>, was: Option<Dec>, entry: Option<Dec>, now: Dec)
    requires PnlAt(mid1, signed, mark, was, entry).Remarked?
    ensures PnlAt(mid2, signed, mark, was, entry).Remarked?
    ensures PnlAt(mid2, signed, Some(mid1), Some(now), entry).Remarked?
  {
  }

  lemma PositionComposesTwice(p: PositionValue, m1: Mids, m2: Mids)
    requires p.market in m2 && !Unreadable(p, m2) && RemarkPnl(p, m1).Remarked?
    ensures RemarkPnl(RemarkPosition(p, m1), m2).Remarked? && RemarkPnl(p, m2).Remarked?
    ensures RemarkPnl(RemarkPosition(p, m1), m2).pnl.String() == RemarkPnl(p, m2).pnl.String()
  {
    var q := RemarkPosition(p, m1);
    var mid1, mid2 := ParseDec(m1[p.market]).value, ParseDec(m2[p.market]).value;
    var signed := SignedSize(p.side, ParseDec(p.size).value);
    var pnl1 := RemarkPnl(p, m1).pnl;
    ParsePrintedValue(pnl1);
    var now := ParseDec(pnl1.String()).value;
    assert RemarkPnl(q, m2) == PnlAt(mid2, signed, Some(mid1), Some(now), ParseDec(p.entryPrice));
    PnlTelescopes(mid1, mid2, signed, ParseDecPtr(p.markPrice), ParseDecPtr(p.unrealizedPnl), ParseDec(p.entryPrice), now);
    PrintDecidesValue(RemarkPnl(q, m2).pnl, RemarkPnl(p, m2).pnl);
  }

  /** Re-marking one position at m1 and then at a readable m2 is re-marking it once at m1 overridden by m2. */
  lemma PositionComposes(p: PositionValue, m1: Mids, m2: Mids)
    requires !Unreadable(p, m2)
    ensures RemarkPosition(RemarkPosition(p, m1), m2) == RemarkPosition(p, m1 + m2)
    ensures RemarkPnl(p, m1 + m2).Remarked? <==> RemarkPnl(p, m1).Remarked? || RemarkPnl(RemarkPosition(p, m1), m2).Remarked?
  {
    if p.market in m2 {
      assert (m1 + m2)[p.market] == m2[p.market];
      assert RemarkPnl(p, m1 + m2) == RemarkPnl(p, m2);
      if RemarkPnl(p, m1).Remarked? {
        PositionComposesTwice(p, m1, m2);
      }
    } else {
      assert p.market in m1 ==> (m1 + m2)[p.market] == m1[p.market];
      assert RemarkPnl(p, m1 + m2) == RemarkPnl(p, m1);
    }
  }

  /** The text of a number as it would be printed, or no number at all. */
  predicate Plain(raw: Option<string>) {
    var d := ParseDecPtr(raw);
    d.Some? ==> raw == Some(d.value.String())
  }

  /** The position already shows the mid as its mark, with one printed P&L. */
  predicate AlreadyAt(p: PositionValue, mid: string) {
    && p.markPrice == Some(mid) && ParseDecPtr(p.unrealizedPnl).Some? && Plain(p.unrealizedPnl)
    && p.valueUsd == p.unrealizedPnl
  }

  /**
   * What keeps a re-mark from touching a position: the guards of
   * remarkProjectedPosition, or nothing left to change.
   */
  predicate Untouched(p: PositionValue, mids: Mids) {
    || p.market !in mids || ParseDec(mids[p.market]).None? || ParseDec(p.size).None?
    || ((ParseDecPtr(p.markPrice).None? || ParseDecPtr(p.unrealizedPnl).None?) && ParseDec(p.entryPrice).None?)
    || AlreadyAt(p, mids[p.market])
  }

  lemma UntouchedIff(p: PositionValue, mids: Mids)
    ensures RemarkPosition(p, mids) == p <==> Untouched(p, mids)
  {
    hide ParseDec, Dec.String, Dec.Add, Dec.Sub, Dec.Mul, AlreadyAt;
    if RemarkPnl(p, mids).Remarked? {
      AlreadyAtIff(p, mids);
    }
  }

  /** A position that is re-marked reads the same exactly when it was already at that mark. */
  lemma AlreadyAtIff(p: PositionValue, mids: Mids)
    requires RemarkPnl(p, mids).Remarked?
    ensures RemarkPosition(p, mids) == p <==> AlreadyAt(p, mids[p.market])
  {
    hide ParseDec, Dec.String, Dec.Add, Dec.Sub, Dec.Mul;
    var pnl := RemarkPnl(p, mids).pnl;
    ParsePrinted(pnl);
    PrintsNormal(pnl);
    if AlreadyAt(p, mids[p.market]) {
      SameMarkPrints(ParseDec(mids[p.market]).value, SignedSize(p.side, ParseDec(p.size).value),
                     ParseDecPtr(p.unrealizedPnl).value, ParseDec(p.entryPrice));
    }
  }

  lemma SameMarkPrints(mid: Dec, signed: Dec, was: Dec, entry: Option<Dec>)
    ensures PnlAt(mid, signed, Some(mid), Some(was), entry).Remarked?
    ensures PnlAt(mid, signed, Some(mid), Some(was), entry).pnl.String() == was.String()
  {
    hide Dec.String, Dec.Value, Dec.Add, Dec.Sub, Dec.Mul;
    var r := PnlAt(mid, signed, Some(mid), Some(was), entry);
    PnlAtValue(mid, signed, Some(mid), Some(was), entry);
    Telescope(was.Value(), signed.Value(), mid.Value(), mid.Value(), mid.Value());
    assert r.pnl.Value() == was.Value();
    hide PnlAt;
    PrintDecidesValue(r.pnl, was);
  }

  /**
   * An unreadable mid in the second pass keeps the position of the first; in the
   * single pass it keeps the delivered one.
   */
  lemma UnreadableKeeps(p: PositionValue, m1: Mids, m2: Mids)
    requires Unreadable(p, m2)
    ensures RemarkPosition(RemarkPosition(p, m1), m2) == RemarkPosition(p, m1) && RemarkPosition(p, m1 + m2) == p
    ensures RemarkPnl(p, m1 + m2).Kept? && RemarkPnl(RemarkPosition(p, m1), m2).Kept?
  {
  }

  /** Exactly when two passes over one position are one pass. */
  lemma PositionComposesIff(p: PositionValue, m1: Mids, m2: Mids)
    ensures RemarkPosition(RemarkPosition(p, m1), m2) == RemarkPosition(p, m1 + m2) <==>
              (Unreadable(p, m2) ==> Untouched(p, m1))
  {
    hide RemarkPosition, Untouched;
    if Unreadable(p, m2) {
      UnreadableKeeps(p, m1, m2);
      UntouchedIff(p, m1);
    } else {
      PositionComposes(p, m1, m2);
    }
  }

  /** Every position whose overriding mid is unreadable is left alone by the first mids. */
  predicate PositionsAllow(ps: seq<PositionValue>, m1: Mids, m2: Mids) {
    forall i :: 0 <= i < |ps| && Unreadable(ps[i], m2) ==> Untouched(ps[i], m1)
  }

  predicate Marked(p: PositionValue, mids: Mids) { RemarkPnl(p, mids).Remarked? || p.markPrice.Some? }

  lemma MarksCompose(p: PositionValue, m1: Mids, m2: Mids)
    requires Unreadable(p, m2) ==> Untouched(p, m1)
    ensures var q := RemarkPosition(p, m1);
            && RemarkPosition(q, m2) == RemarkPosition(p, m1 + m2)
            && (RemarkPnl(p, m1 + m2).Remarked? ==> RemarkPnl(p, m1).Remarked? || RemarkPnl(q, m2).Remarked?)
            && (RemarkPnl(q, m2).Remarked? ==> RemarkPnl(p, m1 + m2).Remarked?)
            && (Marked(p, m1 + m2) <==> Marked(q, m2))
            && (Marked(p, m1) ==> Marked(q, m2))
            && (RemarkPnl(q, m2).Kept? ==> (Marked(p, m1) <==> Marked(p, m1 + m2)))
  {
    if Unreadable(p, m2) {
      UnreadableKeeps(p, m1, m2);
      UntouchedIff(p, m1);
    } else {
      PositionComposes(p, m1, m2);
    }
    hide Untouched, Unreadable;
    assert RemarkPnl(p, m1).Remarked? ==> RemarkPosition(p, m1).markPrice.Some?;
    assert RemarkPnl(p, m1).Kept? ==> RemarkPosition(p, m1) == p;
  }

  lemma PositionsCompose(ps: seq<PositionValue>, m1: Mids, m2: Mids)
    requires PositionsAllow(ps, m1, m2)
    ensures var qs := RemarkPositions(ps, m1);
            && RemarkPositions(qs, m2) == RemarkPositions(ps, m1 + m2)
            && (AnyMoved(ps, m1 + m2) ==> AnyMoved(ps, m1) || AnyMoved(qs, m2))
            && (AnyMoved(qs, m2) ==> AnyMoved(ps, m1 + m2))
            && (AllMarked(ps, m1 + m2) <==> AllMarked(qs, m2))
            && (AllMarked(ps, m1) ==> AllMarked(qs, m2))
            && (!AnyMoved(qs, m2) ==> (AllMarked(ps, m1) <==> AllMarked(ps, m1 + m2)))
            && Shifts(ps, m1).Value() + Shifts(qs, m2).Value() == Shifts(ps, m1 + m2).Value()
  {
    var qs := RemarkPositions(ps, m1);
    hide RemarkPnl, RemarkPosition, Untouched, Unreadable;
    forall i | 0 <= i < |ps|
      ensures RemarkPosition(qs[i], m2) == RemarkPosition(ps[i], m1 + m2)
      ensures RemarkPnl(ps[i], m1 + m2).Remarked? ==> RemarkPnl(ps[i], m1).Remarked? || RemarkPnl(qs[i], m2).Remarked?
      ensures RemarkPnl(qs[i], m2).Remarked? ==> RemarkPnl(ps[i], m1 + m2).Remarked?
      ensures Marked(ps[i], m1 + m2) <==> Marked(qs[i], m2)
      ensures Marked(ps[i], m1) ==> Marked(qs[i], m2)
      ensures RemarkPnl(qs[i], m2).Kept? ==> (Marked(ps[i], m1) <==> Marked(ps[i], m1 + m2))
    {
      MarksCompose(ps[i], m1, m2);
    }
    assert RemarkPositions(qs, m2) == RemarkPositions(ps, m1 + m2);
    ShiftsSum(ps, m1);
    ShiftsSum(qs, m2);
    ShiftsSum(ps, m1 + m2);
  }

  lemma ShiftTwice(raw: Option<string>, a: Dec, b: Dec, c: Dec)
    requires a.Value() + b.Value() == c.Value()
    ensures Shifted(Shifted(raw, a), b) == Shifted(raw, c)
  {
    var d := ParseDecPtr(raw);
    if d.Some? {
      ShiftedValue(raw, a);
      var e := ParseDecPtr(Shifted(raw, a)).value;
      AddValue(e, b);
      AddValue(d.value, c);
      PrintDecidesValue(e.Add(b), d.value.Add(c));
    }
  }

  lemma ShiftSame(raw: Option<string>, a: Dec, c: Dec)
    requires a.Value() == c.Value()
    ensures Shifted(raw, a) == Shifted(raw, c)
  {
    var d := ParseDecPtr(raw);
    if d.Some? {
      AddValue(d.value, a);
      AddValue(d.value, c);
      PrintDecidesValue(d.value.Add(a), d.value.Add(c));
    }
  }

  lemma PnlShiftSame(pnl: Option<ProjectedPnl>, a: Dec, c: Dec)
    requires a.Value() == c.Value()
    ensures ShiftedPnl(pnl, a) == ShiftedPnl(pnl, c)
  {
    if pnl.Some? { ShiftSame(pnl.value.pnlUsd, a, c); }
  }

  lemma PnlShiftTwice(pnl: Option<ProjectedPnl>, a: Dec, b: Dec, c: Dec)
    requires a.Value() + b.Value() == c.Value()
    ensures ShiftedPnl(ShiftedPnl(pnl, a), b) == ShiftedPnl(pnl, c)
  {
    if pnl.Some? { ShiftTwice(pnl.value.pnlUsd, a, b, c); }
  }

  /**
   * Re-marking at these mids would not change a row: nothing moves, or every
   * figure already reads as it would be printed.
   */
  predicate RowUntouched(v: ProjectedValuation, mids: Mids) {
    || !AnyMoved(v.positions, mids)
    || (&& (forall i :: 0 <= i < |v.positions| ==> Untouched(v.positions[i], mids))
        && Plain(v.equity) && Plain(v.unrealizedValue)
        && (v.pnl.Some? && v.pnl.value.status != "pending" ==> Plain(v.pnl.value.pnlUsd))
        && (v.midsComplete == Some(false) ==> !AllMarked(v.positions, mids)))
  }

  /**
   * What two passes need in order to be one: prices fixed by the server, or no
   * unreadable mid overriding one that moves a position, and either the single
   * pass moves something or the first one leaves the row as it is.
   */
  predicate Composes(v: ProjectedValuation, m1: Mids, m2: Mids) {
    || v.pricingMode == "server"
    || (PositionsAllow(v.positions, m1, m2) && (AnyMoved(v.positions, m1 + m2) || RowUntouched(v, m1)))
  }

  /**
   * Re-marking composes: a row re-marked at m1 and then at m2 is, text for
   * text, the delivered row re-marked once at m1 overridden by m2, exactly
   * when the condition above holds.
   */
  lemma RevalueComposesIff(v: ProjectedValuation, m1: Mids, m2: Mids)
    ensures Revalue(Revalue(v, m1), m2) == Revalue(v, m1 + m2) <==> Composes(v, m1, m2)
  {
    hide Revalue, AnyMoved, RowUntouched, Untouched;
    if v.pricingMode == "server" {
      ServerPriced(v, m1, m2);
    } else if !PositionsAllow(v.positions, m1, m2) {
      UnreadableDiffers(v, m1, m2);
    } else if !AnyMoved(v.positions, m1) {
      ComposesFirstIdle(v, m1, m2);
      IdleIsUntouched(v, m1);
    } else if !AnyMoved(v.positions, m1 + m2) {
      ComposesOnlyFirst(v, m1, m2);
    } else if !AnyMoved(RemarkPositions(v.positions, m1), m2) {
      ComposesSecondIdle(v, m1, m2);
    } else {
      ComposesBoth(v, m1, m2);
    }
  }

  /** In particular whenever the overriding mids are numbers. */
  lemma RevalueComposes(v: ProjectedValuation, m1: Mids, m2: Mids)
    requires forall k :: k in m2 ==> ParseDec(m2[k]).Some?
    ensures Revalue(Revalue(v, m1), m2) == Revalue(v, m1 + m2)
  {
    hide Revalue, RemarkPnl;
    RevalueComposesIff(v, m1, m2);
    if AnyMoved(v.positions, m1) {
      var i :| 0 <= i < |v.positions| && RemarkPnl(v.positions[i], m1).Remarked?;
      PositionComposes(v.positions[i], m1, m2);
    }
  }

  lemma ServerPriced(v: ProjectedValuation, m1: Mids, m2: Mids)
    requires v.pricingMode == "server"
    ensures Revalue(Revalue(v, m1), m2) == Revalue(v, m1 + m2)
  {
  }

  lemma IdleIsUntouched(v: ProjectedValuation, mids: Mids)
    requires !AnyMoved(v.positions, mids)
    ensures RowUntouched(v, mids) && Revalue(v, mids) == v
  {
  }

  lemma UnreadableDiffers(v: ProjectedValuation, m1: Mids, m2: Mids)
    requires v.pricingMode != "server" && !PositionsAllow(v.positions, m1, m2)
    ensures Revalue(Revalue(v, m1), m2) != Revalue(v, m1 + m2)
  {
    hide Untouched, Unreadable, RemarkPnl;
    var ps := v.positions;
    var i :| 0 <= i < |ps| && Unreadable(ps[i], m2) && !Untouched(ps[i], m1);
    UntouchedIff(ps[i], m1);
    UnreadableKeeps(ps[i], m1, m2);
    assert RemarkPnl(ps[i], m1).Remarked?;
    assert Revalue(v, m1).positions == RemarkPositions(ps, m1);
    assert Revalue(Revalue(v, m1), m2).positions[i] == RemarkPosition(ps[i], m1);
    assert Revalue(v, m1 + m2).positions[i] == ps[i];
  }

  lemma ComposesFirstIdle(v: ProjectedValuation, m1: Mids, m2: Mids)
    requires PositionsAllow(v.positions, m1, m2) && v.pricingMode != "server" && !AnyMoved(v.positions, m1)
    ensures Revalue(Revalue(v, m1), m2) == Revalue(v, m1 + m2)
  {
    hide RemarkPnl, PositionsAllow;
    var ps, qs := v.positions, RemarkPositions(v.positions, m1);
    PositionsCompose(ps, m1, m2);
    var b, c := Shifts(qs, m2), Shifts(ps, m1 + m2);
    NothingMoved(ps, m1);
    ZeroValue();
    ShiftSame(v.equity, b, c);
    ShiftSame(v.unrealizedValue, b, c);
    PnlShiftSame(v.pnl, b, c);
  }

  /** The first pass moves only positions the single pass keeps: all of it must already read that way. */
  lemma ComposesOnlyFirst(v: ProjectedValuation, m1: Mids, m2: Mids)
    requires PositionsAllow(v.positions, m1, m2) && v.pricingMode != "server"
    requires AnyMoved(v.positions, m1) && !AnyMoved(v.positions, m1 + m2)
    ensures Revalue(Revalue(v, m1), m2) == Revalue(v, m1) && Revalue(v, m1 + m2) == v
    ensures Revalue(v, m1) == v <==> RowUntouched(v, m1)
  {
    hide RemarkPnl, PositionsAllow, Untouched;
    PositionsCompose(v.positions, m1, m2);
    TouchedIff(v, m1);
  }

  lemma TouchedIff(v: ProjectedValuation, mids: Mids)
    requires v.pricingMode != "server" && AnyMoved(v.positions, mids)
    ensures Revalue(v, mids) == v <==> RowUntouched(v, mids)
  {
    var ps := v.positions;
    hide RemarkPnl, RemarkPosition, Untouched;
    forall i | 0 <= i < |ps|
      ensures RemarkPosition(ps[i], mids) == ps[i] <==> Untouched(ps[i], mids)
    {
      UntouchedIff(ps[i], mids);
    }
    assert RemarkPositions(ps, mids) == ps <==> forall i :: 0 <= i < |ps| ==> Untouched(ps[i], mids) by {
      if RemarkPositions(ps, mids) == ps {
        forall i | 0 <= i < |ps|
          ensures Untouched(ps[i], mids)
        {
          assert RemarkPositions(ps, mids)[i] == RemarkPosition(ps[i], mids);
        }
      }
    }
    if RemarkPositions(ps, mids) == ps {
      var shift := Shifts(ps, mids);
      ShiftsSum(ps, mids);
      ShiftByNothing(v.equity, shift);
      ShiftByNothing(v.unrealizedValue, shift);
      if v.pnl.Some? { ShiftByNothing(v.pnl.value.pnlUsd, shift); }
    }
  }

  /** A zero shift reprints a figure. */
  lemma ShiftByNothing(raw: Option<string>, shift: Dec)
    requires shift.Value() == 0.0
    ensures Shifted(raw, shift) == raw <==> Plain(raw)
  {
    var d := ParseDecPtr(raw);
    if d.Some? {
      AddValue(d.value, shift);
      PrintDecidesValue(d.value.Add(shift), d.value);
    }
  }

  lemma ComposesSecondIdle(v: ProjectedValuation, m1: Mids, m2: Mids)
    requires PositionsAllow(v.positions, m1, m2) && v.pricingMode != "server"
    requires AnyMoved(v.positions, m1) && AnyMoved(v.positions, m1 + m2) && !AnyMoved(RemarkPositions(v.positions, m1), m2)
    ensures Revalue(Revalue(v, m1), m2) == Revalue(v, m1 + m2)
  {
    hide RemarkPnl, PositionsAllow;
    var ps, qs := v.positions, RemarkPositions(v.positions, m1);
    PositionsCompose(ps, m1, m2);
    var a, c := Shifts(ps, m1), Shifts(ps, m1 + m2);
    NothingMoved(qs, m2);
    ZeroValue();
    ShiftSame(v.equity, a, c);
    ShiftSame(v.unrealizedValue, a, c);
    PnlShiftSame(v.pnl, a, c);
  }

  lemma ComposesBoth(v: ProjectedValuation, m1: Mids, m2: Mids)
    requires PositionsAllow(v.positions, m1, m2) && v.pricingMode != "server"
    requires AnyMoved(v.positions, m1) && AnyMoved(RemarkPositions(v.positions, m1), m2)
    ensures Revalue(Revalue(v, m1), m2) == Revalue(v, m1 + m2)
  {
    hide RemarkPnl, PositionsAllow;
    var ps, qs := v.positions, RemarkPositions(v.positions, m1);
    PositionsCompose(ps, m1, m2);
    var a, b, c := Shifts(ps, m1), Shifts(qs, m2), Shifts(ps, m1 + m2);
    ShiftTwice(v.equity, a, b, c);
    ShiftTwice(v.unrealizedValue, a, b, c);
    PnlShiftTwice(v.pnl, a, b, c);
  }

  lemma NotANumber()
    ensures ParseDec("x") == None
  {
  }

  /** Where the overriding mid is not a number the two can differ: the single pass loses the older mid. */
  lemma UnparsableMidBreaksComposition(v: ProjectedValuation, p: PositionValue, m1: Mids, m2: Mids)
    requires p == PositionValue("BTC", "long", "1", "0", None, None, None)
    requires v.pricingMode == "" && v.positions == [p]
    requires m1 == map["BTC" := "1"] && m2 == map["BTC" := "x"]
    ensures Revalue(Revalue(v, m1), m2) != Revalue(v, m1 + m2)
  {
    OneDigit('1');
    OneDigit('0');
    NotANumber();
    hide ParseDec;
    assert Unreadable(v.positions[0], m2) && !Untouched(v.positions[0], m1);
    hide Revalue, Untouched, Unreadable;
    UnreadableDiffers(v, m1, m2);
  }

  lemma OneDigit(c: char)
    requires IsDigit(c)
    ensures ParseDec([c]) == Some(Dec(DigitValue(c), 0))
  {
    TrimmedNumeral([c]);
    CutNoPoint([c]);
    assert [c] + "" == [c];
    assert [c][..0] == "" && ToNat("") == 0;
    assert ToNat([c]) == DigitValue(c);
  }
}
