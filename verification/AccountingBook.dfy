/**
 * What the projected book shows, market by market, in terms of what was held,
 * bought and sold: an independent reading of ProjectedPositions.
 */
module AccountingBook {
  import opened Text
  import opened OrderBreakdown
  import opened Accounting

  // ------------------------------------------------- bought and sold

  predicate Buys(e: Execution) { ToLower(e.side) == "buy" || ToLower(e.side) == "long" }

  predicate Sells(e: Execution) { ToLower(e.side) == "sell" || ToLower(e.side) == "short" }

  /** An execution that can be composed: a quantity that is a number and not negative, on a known side. */
  predicate ReadableExecution(e: Execution) {
    e.unaccounted.Some? && e.unaccounted.value >= 0.0 && (Buys(e) || Sells(e))
  }

  predicate AllReadable(pending: seq<Execution>) { forall i :: 0 <= i < |pending| ==> ReadableExecution(pending[i]) }

  ghost function Bought(pending: seq<Execution>): real
    requires AllReadable(pending)
  {
    if pending == [] then 0.0 else (if Buys(pending[0]) then pending[0].unaccounted.value else 0.0) + Bought(pending[1..])
  }

  ghost function Sold(pending: seq<Execution>): real
    requires AllReadable(pending)
  {
    if pending == [] then 0.0 else (if Sells(pending[0]) then pending[0].unaccounted.value else 0.0) + Sold(pending[1..])
  }

  lemma SidesDiffer(e: Execution)
    ensures !(Buys(e) && Sells(e))
  {
    assert "buy" != "sell" && "long" != "sell" && "buy" != "short" && "long" != "short" by {
      assert "long"[0] != "sell"[0] && "long"[0] != "short"[0];
    }
  }

  /** The signed quantity of one execution: bought counts up, sold counts down, anything else does not compose. */
  lemma ExecutionReads(e: Execution)
    ensures SignedUnaccounted(e) ==
              if !ReadableExecution(e) then None else if Buys(e) then Some(e.unaccounted.value) else Some(-e.unaccounted.value)
  {
    SidesDiffer(e);
    hide ToLower;
  }

  /** The deltas of a list are what was bought less what was sold. */
  lemma {:induction false} DeltasRead(pending: seq<Execution>)
    ensures Composable(pending) <==> AllReadable(pending)
    ensures AllReadable(pending) ==> SumDeltas(pending) == Bought(pending) - Sold(pending)
  {
    hide SignedUnaccounted, ReadableExecution, Buys, Sells;
    forall i | 0 <= i < |pending|
      ensures SignedUnaccounted(pending[i]).Some? <==> ReadableExecution(pending[i])
    {
      ExecutionReads(pending[i]);
    }
    if pending != [] {
      DeltasRead(pending[1..]);
      ExecutionReads(pending[0]);
      SidesDiffer(pending[0]);
      assert AllReadable(pending) ==> AllReadable(pending[1..]) && ReadableExecution(pending[0]);
      FirstReads(pending);
    }
  }

  lemma FirstReads(pending: seq<Execution>)
    requires pending != []
    ensures AllReadable(pending) ==>
              && ReadableExecution(pending[0]) && pending[0].unaccounted.Some? && (Buys(pending[0]) || Sells(pending[0]))
  {
  }

  // ------------------------------------------------- one market

  /** What the ledger holds, signed: a long counts up, a short counts down. */
  ghost function HeldQuantity(ledger: Option<LedgerPosition>): real
    requires ledger.Some? ==> ledger.value.size.Some?
  {
    if ledger.None? then 0.0
    else match ledger.value.side case Long => ledger.value.size.value case Short => -ledger.value.size.value
  }

  /** The quantity a market comes to once the ledger has recorded everything. */
  ghost function Total(ledger: Option<LedgerPosition>, mine: seq<Execution>): real
    requires (ledger.Some? ==> ledger.value.size.Some?) && AllReadable(mine)
  {
    HeldQuantity(ledger) + Bought(mine) - Sold(mine)
  }

  /** The entry price the ledger knows: a positive one. */
  ghost function KnownEntry(ledger: Option<LedgerPosition>): Option<real> {
    if ledger.Some? && ledger.value.entryPrice.Some? && ledger.value.entryPrice.value > 0.0 then ledger.value.entryPrice else None
  }

  ghost predicate Unreadable(ledger: Option<LedgerPosition>, mine: seq<Execution>) {
    (ledger.Some? && ledger.value.size.None?) || !AllReadable(mine)
  }

  /**
   * What a market shows. Nothing pending, or something unreadable: the
   * ledger's own row, or nothing where there is none. Otherwise nothing when
   * the total is zero, and one row with the total's side and size, the entry
   * the executions blend into, and what it was made from.
   */
  ghost predicate MarketShows(market: string, ledger: Option<LedgerPosition>, mine: seq<Execution>, rows: seq<Row>) {
    if mine == [] || Unreadable(ledger, mine) then
      if ledger.None? then rows == []
      else
        var p := ledger.value;
        rows == [Row(p.market, p.side, p.size, p.entryPrice, FromLedger, ledger, [])]
    else
      var total := Total(ledger, mine);
      if total == 0.0 then rows == []
      else
        && |rows| == 1
        && rows[0].market == market && rows[0].source == FromExecution && rows[0].ledger == ledger && rows[0].pending == mine
        && rows[0].side == (if total > 0.0 then Long else Short)
        && rows[0].size == Some(if total > 0.0 then total else -total)
        && Composable(mine)
        && rows[0].entryPrice == ApplyAll(Holding(HeldQuantity(ledger), KnownEntry(ledger)), mine).entry
  }

  lemma ComposeShows(market: string, ledger: Option<LedgerPosition>, mine: seq<Execution>)
    requires ledger.Some? ==> ledger.value.market == market
    requires forall i :: 0 <= i < |mine| ==> mine[i].market == market
    requires mine != []
    ensures var r := Compose(ledger, mine);
            && (r.Unparsable? <==> Unreadable(ledger, mine))
            && (!r.Unparsable? ==> MarketShows(market, ledger, mine, if r.Composed? then [r.row] else []))
  {
    DeltasRead(mine);
    NamedByMarket(mine, market);
    hide AllReadable, SignedUnaccounted, BlendedEntry;
    if !Unreadable(ledger, mine) {
      AppliedQuantity(Holding(HeldQuantity(ledger), KnownEntry(ledger)), mine);
      assert LedgerHolding(ledger) == Some(Holding(HeldQuantity(ledger), KnownEntry(ledger)));
    }
  }

  // ------------------------------------------------- the book

  ghost function RowsFor(out: seq<Row>, market: string): seq<Row> {
    if out == [] then []
    else RowsFor(out[..|out| - 1], market) + (if out[|out| - 1].market == market then [out[|out| - 1]] else [])
  }

  lemma {:induction false} RowsForSplits(a: seq<Row>, b: seq<Row>, market: string)
    ensures RowsFor(a + b, market) == RowsFor(a, market) + RowsFor(b, market)
  {
    if b == [] {
      assert a + b == a;
    } else {
      assert (a + b)[..|a + b| - 1] == a + b[..|b| - 1];
      RowsForSplits(a, b[..|b| - 1], market);
    }
  }

  /** Rows that all name one market are all or none of a market's. */
  lemma {:induction false} RowsOfOne(rows: seq<Row>, market: string, other: string)
    requires forall i :: 0 <= i < |rows| ==> rows[i].market == market
    ensures RowsFor(rows, other) == if other == market then rows else []
  {
    if rows != [] {
      RowsOfOne(rows[..|rows| - 1], market, other);
      assert rows == rows[..|rows| - 1] + [rows[|rows| - 1]];
    }
  }

  lemma {:induction false} MineNamesMarket(pending: seq<Execution>, market: string)
    ensures forall i :: 0 <= i < |PendingFor(pending, market)| ==> PendingFor(pending, market)[i].market == market
  {
    if pending != [] { MineNamesMarket(pending[..|pending| - 1], market); }
  }

  lemma PositionShows(p: LedgerPosition, pending: seq<Execution>)
    ensures var mine := PendingFor(pending, p.market);
            && MarketShows(p.market, Some(p), mine, RowsOf(p, mine))
            && forall i :: 0 <= i < |RowsOf(p, mine)| ==> RowsOf(p, mine)[i].market == p.market
  {
    var mine := PendingFor(pending, p.market);
    MineNamesMarket(pending, p.market);
    hide PendingFor, Compose;
    if mine != [] { ComposeShows(p.market, Some(p), mine); }
  }

  ghost predicate DistinctMarkets(positions: seq<LedgerPosition>) {
    forall i, j :: 0 <= i < j < |positions| ==> positions[i].market != positions[j].market
  }

  /** One more position adds its own rows to its own market and nothing to any other. */
  lemma LedgerRowsStep(positions: seq<LedgerPosition>, pending: seq<Execution>, market: string)
    requires positions != []
    ensures var last := |positions| - 1;
            var p, before := positions[last], RowsFor(LedgerRows(positions[..last], pending), market);
            RowsFor(LedgerRows(positions, pending), market) ==
              before + if p.market == market then RowsOf(p, PendingFor(pending, market)) else []
  {
    hide RowsOf, PendingFor, RowsFor;
    var last := |positions| - 1;
    var p := positions[last];
    var own := RowsOf(p, PendingFor(pending, p.market));
    PositionShows(p, pending);
    RowsOfOne(own, p.market, market);
    RowsForSplits(LedgerRows(positions[..last], pending), own, market);
  }

  lemma {:induction false} LedgerRowsAbsent(positions: seq<LedgerPosition>, pending: seq<Execution>, market: string)
    requires forall i :: 0 <= i < |positions| ==> positions[i].market != market
    ensures RowsFor(LedgerRows(positions, pending), market) == []
  {
    if positions != [] {
      hide RowsOf, PendingFor, RowsFor, LedgerRows;
      LedgerRowsAbsent(positions[..|positions| - 1], pending, market);
      LedgerRowsStep(positions, pending, market);
    }
  }

  lemma {:induction false} LedgerRowsFor(positions: seq<LedgerPosition>, pending: seq<Execution>, i: nat)
    requires DistinctMarkets(positions) && i < |positions|
    ensures var m := positions[i].market;
            RowsFor(LedgerRows(positions, pending), m) == RowsOf(positions[i], PendingFor(pending, m))
  {
    hide RowsOf, PendingFor, RowsFor, LedgerRows;
    var last, m := |positions| - 1, positions[i].market;
    LedgerRowsStep(positions, pending, m);
    if i == last {
      LedgerRowsAbsent(positions[..last], pending, m);
      assert [] + RowsOf(positions[i], PendingFor(pending, m)) == RowsOf(positions[i], PendingFor(pending, m));
    } else {
      LedgerRowsFor(positions[..last], pending, i);
      assert positions[last].market != m;
    }
  }

  lemma NoRows(market: string)
    ensures RowsFor([], market) == []
  {
  }

  lemma {:induction false} OpenedRowsFor(markets: seq<string>, pending: seq<Execution>, market: string)
    requires forall i, j :: 0 <= i < j < |markets| ==> markets[i] != markets[j]
    requires forall m :: m in markets ==> PendingFor(pending, m) != []
    ensures var mine := PendingFor(pending, market);
            if market in markets then MarketShows(market, None, mine, RowsFor(OpenedRows(markets, pending), market))
            else RowsFor(OpenedRows(markets, pending), market) == []
  {
    hide PendingFor, RowsFor, Compose, MarketShows;
    if markets == [] {
      NoRows(market);
    } else {
      var last := |markets| - 1;
      var m := markets[last];
      assert m in markets && forall x :: x in markets[..last] ==> x in markets;
      OpenedRowsFor(markets[..last], pending, market);
      OpenedShows(m, pending);
      var r := Compose(None, PendingFor(pending, m));
      var own := if r.Composed? then [r.row] else [];
      RowsOfOne(own, m, market);
      RowsForSplits(OpenedRows(markets[..last], pending), own, market);
      assert market in markets <==> market == m || market in markets[..last];
      var before := RowsFor(OpenedRows(markets[..last], pending), market);
      assert before + [] == before && [] + own == own;
    }
  }

  lemma OpenedShows(market: string, pending: seq<Execution>)
    requires PendingFor(pending, market) != []
    ensures var mine := PendingFor(pending, market);
            var r := Compose(None, mine);
            && MarketShows(market, None, mine, if r.Composed? then [r.row] else [])
            && (r.Composed? ==> r.row.market == market)
  {
    MineNamesMarket(pending, market);
    hide PendingFor, Compose;
    ComposeShows(market, None, PendingFor(pending, market));
  }

  /**
   * Every market of the book: a ledger market shows what its ledger row and
   * its own executions come to, and any other market what its executions
   * alone come to, for every output of ProjectedPositions.
   */
  lemma BookShows(
    positions: seq<LedgerPosition>, pending: seq<Execution>, out: seq<Row>, added: seq<string>, market: string)
    requires IsBook(positions, pending, out, added) && DistinctMarkets(positions)
    ensures forall i :: 0 <= i < |positions| && positions[i].market == market ==>
              MarketShows(market, Some(positions[i]), PendingFor(pending, market), RowsFor(out, market))
    ensures (forall i :: 0 <= i < |positions| ==> positions[i].market != market) ==>
              MarketShows(market, None, PendingFor(pending, market), RowsFor(out, market))
  {
    hide PendingFor, RowsFor, MarketShows, LedgerRows, OpenedRows, RowsOf, Less;
    RowsForSplits(LedgerRows(positions, pending), OpenedRows(added, pending), market);
    SortedDistinct(added);
    OpenedRowsFor(added, pending, market);
    var ledger, rest := RowsFor(LedgerRows(positions, pending), market), RowsFor(OpenedRows(added, pending), market);
    assert RowsFor(out, market) == ledger + rest;
    assert ledger + [] == ledger && [] + rest == rest;
    forall i | 0 <= i < |positions| && positions[i].market == market
      ensures MarketShows(market, Some(positions[i]), PendingFor(pending, market), RowsFor(out, market))
    {
      LedgerRowsFor(positions, pending, i);
      PositionShows(positions[i], pending);
    }
    if forall i :: 0 <= i < |positions| ==> positions[i].market != market {
      LedgerRowsAbsent(positions, pending, market);
    }
    if market !in added && forall i :: 0 <= i < |positions| ==> positions[i].market != market {
      NothingShown(market);
    }
  }

  lemma NothingShown(market: string)
    ensures MarketShows(market, None, [], [])
  {
  }

  lemma SortedDistinct(a: seq<string>)
    requires StrictlySorted(a)
    ensures forall i, j :: 0 <= i < j < |a| ==> a[i] != a[j]
  {
    hide Less;
    forall i, j | 0 <= i < j < |a|
      ensures a[i] != a[j]
    {
      LessIsStrictOrder(a[i], a[j], a[i]);
    }
  }

  // ------------------------------------------------- order of the rows

  ghost predicate Increasing(idx: seq<nat>, bound: nat) {
    && (forall a :: 0 <= a < |idx| ==> idx[a] < bound)
    && (forall a, b :: 0 <= a < b < |idx| ==> idx[a] < idx[b])
  }

  /** The rows name some of these markets, in their order, each place at most once. */
  ghost predicate Follows(rows: seq<Row>, names: seq<string>, idx: seq<nat>) {
    && |idx| == |rows| && Increasing(idx, |names|)
    && forall a :: 0 <= a < |idx| ==> rows[a].market == names[idx[a]]
  }

  lemma FollowsOne(rows: seq<Row>, names: seq<string>, idx: seq<nat>, own: seq<Row>, m: string)
    requires Follows(rows, names, idx) && |own| <= 1 && forall i :: 0 <= i < |own| ==> own[i].market == m
    ensures Follows(rows + own, names + [m], idx + if own == [] then [] else [|names|])
  {
    if own == [] {
      assert rows + own == rows && idx + [] == idx;
    }
  }

  ghost function Names(positions: seq<LedgerPosition>): (names: seq<string>)
    ensures |names| == |positions| && forall i :: 0 <= i < |positions| ==> names[i] == positions[i].market
  {
    if positions == [] then [] else Names(positions[..|positions| - 1]) + [positions[|positions| - 1].market]
  }

  lemma {:induction false} LedgerInOrder(
    positions: seq<LedgerPosition>, pending: seq<Execution>)
    returns (idx: seq<nat>)
    ensures Follows(LedgerRows(positions, pending), Names(positions), idx)
  {
    hide RowsOf, PendingFor, Follows;
    if positions == [] {
      idx := [];
      NothingFollows();
    } else {
      var last := |positions| - 1;
      var p := positions[last];
      var own := RowsOf(p, PendingFor(pending, p.market));
      var before := LedgerInOrder(positions[..last], pending);
      PositionShows(p, pending);
      AtMostOne(p, pending);
      FollowsOne(LedgerRows(positions[..last], pending), Names(positions[..last]), before, own, p.market);
      idx := before + if own == [] then [] else [last];
    }
  }

  lemma NothingFollows()
    ensures Follows([], [], [])
  {
  }

  lemma AtMostOne(p: LedgerPosition, pending: seq<Execution>)
    ensures |RowsOf(p, PendingFor(pending, p.market))| <= 1
  {
    hide PendingFor, Compose;
  }

  lemma {:induction false} OpenedInOrder(markets: seq<string>, pending: seq<Execution>) returns (idx: seq<nat>)
    requires forall m :: m in markets ==> PendingFor(pending, m) != []
    ensures Follows(OpenedRows(markets, pending), markets, idx)
  {
    hide PendingFor, Compose, Follows, MarketShows;
    if markets == [] {
      idx := [];
      NothingFollows();
    } else {
      var last := |markets| - 1;
      var m := markets[last];
      assert m in markets && forall x :: x in markets[..last] ==> x in markets;
      var before := OpenedInOrder(markets[..last], pending);
      OpenedShows(m, pending);
      var r := Compose(None, PendingFor(pending, m));
      var own := if r.Composed? then [r.row] else [];
      FollowsOne(OpenedRows(markets[..last], pending), markets[..last], before, own, m);
      idx := before + if own == [] then [] else [last];
      assert markets[..last] + [m] == markets;
    }
  }

  /** These are the executions that name a market: each at an increasing place, and none left out. */
  ghost predicate Picks(pending: seq<Execution>, market: string, mine: seq<Execution>, idx: seq<nat>) {
    && |idx| == |mine| && Increasing(idx, |pending|)
    && (forall a :: 0 <= a < |idx| ==> mine[a] == pending[idx[a]])
    && (forall i :: 0 <= i < |pending| ==> (pending[i].market == market <==> i in idx))
  }

  lemma PicksOne(pending: seq<Execution>, market: string, mine: seq<Execution>, idx: seq<nat>, e: Execution)
    requires Picks(pending, market, mine, idx)
    ensures e.market != market ==> Picks(pending + [e], market, mine, idx)
    ensures e.market == market ==> Picks(pending + [e], market, mine + [e], idx + [|pending|])
  {
    var all := pending + [e];
    if e.market == market {
      forall i | 0 <= i < |all|
        ensures all[i].market == market <==> i in idx + [|pending|]
      {
        if i < |pending| { assert all[i] == pending[i]; }
      }
    } else {
      forall i | 0 <= i < |all|
        ensures all[i].market == market <==> i in idx
      {
        if i < |pending| { assert all[i] == pending[i]; }
      }
    }
  }

  /** A market's executions are exactly those that name it, in listed order. */
  lemma {:induction false} MineInOrder(pending: seq<Execution>, market: string) returns (idx: seq<nat>)
    ensures Picks(pending, market, PendingFor(pending, market), idx)
  {
    if pending == [] {
      idx := [];
    } else {
      hide Picks;
      var last := |pending| - 1;
      var before := MineInOrder(pending[..last], market);
      PicksOne(pending[..last], market, PendingFor(pending[..last], market), before, pending[last]);
      idx := before + if pending[last].market == market then [last] else [];
      assert pending[..last] + [pending[last]] == pending && before + [] == before;
    }
  }

  /** The order of market names: the first differing character decides, and a name comes before any it begins. */
  lemma {:induction false} LessReads(p: string, x: char, s: string, y: char, t: string)
    ensures x < y ==> Less(p + [x] + s, p + [y] + t)
    ensures Less(p, p + [x] + s)
  {
    if p != "" {
      LessReads(p[1..], x, s, y, t);
      assert (p + [x] + s)[1..] == p[1..] + [x] + s && (p + [y] + t)[1..] == p[1..] + [y] + t;
    }
  }

  /**
   * The book's order: rows of ledger markets first, in ledger order, then rows of
   * other markets in strictly increasing order.
   */
  lemma BookInOrder(positions: seq<LedgerPosition>, pending: seq<Execution>, out: seq<Row>, added: seq<string>)
    returns (split: nat, idx: seq<nat>)
    requires IsBook(positions, pending, out, added)
    ensures split == |idx| <= |out| && Increasing(idx, |positions|)
    ensures forall a :: 0 <= a < split ==> out[a].market == positions[idx[a]].market
    ensures forall a, b :: split <= a < b < |out| ==> Less(out[a].market, out[b].market)
    ensures forall a, i :: split <= a < |out| && 0 <= i < |positions| ==> out[a].market != positions[i].market
  {
    hide PendingFor, LedgerRows, OpenedRows, Less;
    idx := LedgerInOrder(positions, pending);
    split := |idx|;
    var at := OpenedInOrder(added, pending);
    forall a | split <= a < |out|
      ensures out[a].market == added[at[a - split]] && out[a].market in added
    {
    }
  }

  /** A long of five, two of it sold but not recorded yet: a long of three at the old entry, not a short of seven. */
  lemma WorkedBook(p: LedgerPosition, e: Execution, out: seq<Row>, added: seq<string>)
    requires p == LedgerPosition("BTC", Long, Some(5.0), Some(100.0))
    requires e == Execution("op", "BTC", "sell", Some(2.0), Some(110.0))
    requires IsBook([p], [e], out, added)
    ensures out == [Row("BTC", Long, Some(3.0), Some(100.0), FromExecution, Some(p), [e])]
  {
    WorkedMarket(p, e);
    OnlyMarket(p, e, added);
    hide Compose, PendingFor, StrictlySorted;
    assert [p][..0] == [];
    assert LedgerRows([p], [e]) == [] + RowsOf(p, PendingFor([e], p.market));
  }

  lemma WorkedMarket(p: LedgerPosition, e: Execution)
    requires p == LedgerPosition("BTC", Long, Some(5.0), Some(100.0))
    requires e == Execution("op", "BTC", "sell", Some(2.0), Some(110.0))
    ensures Compose(Some(p), [e]) == Composed(Row("BTC", Long, Some(3.0), Some(100.0), FromExecution, Some(p), [e]))
  {
    SideWords();
    assert SignedUnaccounted(e) == Some(-2.0);
    hide SignedUnaccounted;
    OneApplied(Holding(5.0, Some(100.0)), e);
    assert Apply(Holding(5.0, Some(100.0)), -2.0, Some(110.0)) == Holding(3.0, Some(100.0));
    hide ApplyAll, Apply;
    assert Composable([e]);
  }

  /** With the one execution in the one ledger market, that market has it and no market is added. */
  lemma OnlyMarket(p: LedgerPosition, e: Execution, added: seq<string>)
    requires p.market == e.market
    requires forall m :: m in added <==> PendingFor([e], m) != [] && forall i :: 0 <= i < |[p]| ==> [p][i].market != m
    ensures PendingFor([e], p.market) == [e] && added == []
  {
    assert [e][..0] == [];
    assert added != [] ==> added[0] in added;
    forall m
      ensures m !in added
    {
      assert PendingFor([e], m) == if e.market == m then [e] else [];
      assert [p][0].market == p.market;
    }
  }
}
