/**
 * The dedupe window of the fill stream: what it remembers in every reachable
 * state, and that no fill is emitted twice within it.
 */
module FillDedupe {
  import opened Text
  import opened FillStream

  ghost predicate NoDuplicates(rows: seq<nat>) {
    forall i, j :: 0 <= i < j < |rows| ==> rows[i] != rows[j]
  }

  /** The rows of the last `n` emissions, oldest first. */
  ghost function LastRows(emitted: seq<Emission>, n: nat): (rows: seq<nat>)
    requires n <= |emitted|
    ensures |rows| == n && forall i :: 0 <= i < n ==> rows[i] == emitted[|emitted| - n + i].row
  {
    if n == 0 then [] else [emitted[|emitted| - n].row] + LastRows(emitted, n - 1)
  }

  /** No row occurs twice within 513 consecutive emissions. */
  ghost predicate Spaced(emitted: seq<Emission>) {
    forall i, j :: 0 <= i < j <= i + 512 && j < |emitted| ==> emitted[i].row != emitted[j].row
  }

  /** The window is a duplicate-free list with its set, and on an open stream exactly the rows emitted last. */
  ghost predicate Remembers(c: Client) {
    && NoDuplicates(c.seenOrder)
    && (forall r :: r in c.seen <==> r in c.seenOrder)
    && |c.seenOrder| <= 512
    && Spaced(c.emitted)
    && (!c.closed ==>
          && |c.seenOrder| == (if |c.emitted| < 512 then |c.emitted| else 512)
          && c.seenOrder == LastRows(c.emitted, |c.seenOrder|))
  }

  lemma WindowSlides(order: seq<nat>, row: nat)
    requires NoDuplicates(order) && row !in order && |order| <= 512
    ensures NoDuplicates(order + [row]) && NoDuplicates((order + [row])[1..])
    ensures order != [] ==> forall r :: r in (order + [row])[1..] <==> (r in order || r == row) && r != order[0]
  {
    var all := order + [row];
    assert forall i :: 0 <= i < |all[1..]| ==> all[1..][i] == all[i + 1];
    if order != [] {
      forall r
        ensures r in all[1..] <==> (r in order || r == row) && r != order[0]
      {
        assert all == [order[0]] + all[1..];
        assert r in all <==> r in order || r == row;
        if r in all[1..] {
          var i :| 0 <= i < |all| - 1 && all[i + 1] == r;
          assert all[0] != all[i + 1];
        }
      }
    }
  }

  lemma SpacedGrows(emitted: seq<Emission>, e: Emission, n: nat)
    requires Spaced(emitted) && n <= |emitted| && n == (if |emitted| < 512 then |emitted| else 512)
    requires e.row !in LastRows(emitted, n)
    ensures Spaced(emitted + [e])
  {
    var all, rows := emitted + [e], LastRows(emitted, n);
    forall i, j | 0 <= i < j <= i + 512 && j < |all|
      ensures all[i].row != all[j].row
    {
      if j == |emitted| {
        assert rows[i - (|emitted| - n)] == all[i].row;
      }
    }
  }

  /** One more emission slides the last rows along. */
  lemma LastRowsSlide(emitted: seq<Emission>, e: Emission, n: nat)
    requires n <= |emitted|
    ensures LastRows(emitted + [e], n + 1) == LastRows(emitted, n) + [e.row]
    ensures n > 0 ==> LastRows(emitted + [e], n) == LastRows(emitted, n)[1..] + [e.row]
  {
  }

  lemma DeliverWindow(c: Client, row: nat, cursor: nat, replayed: bool)
    requires Remembers(c) && row !in c.seen
    ensures var d := Deliver(c, row, cursor, replayed);
            && NoDuplicates(d.seenOrder) && |d.seenOrder| <= 512 && forall r :: r in d.seen <==> r in d.seenOrder
  {
    WindowSlides(c.seenOrder, row);
    hide NoDuplicates, Spaced, LastRows;
    var order := c.seenOrder + [row];
    assert order[0] == if c.seenOrder == [] then row else c.seenOrder[0];
  }

  lemma DeliverEmits(c: Client, row: nat, cursor: nat, replayed: bool)
    requires Remembers(c) && row !in c.seen && !c.closed
    ensures var d := Deliver(c, row, cursor, replayed);
            && Spaced(d.emitted) && |d.seenOrder| == (if |d.emitted| < 512 then |d.emitted| else 512)
            && d.seenOrder == LastRows(d.emitted, |d.seenOrder|)
  {
    var d := Deliver(c, row, cursor, replayed);
    var e := Emission(row, d.cursor, replayed);
    var n := |c.seenOrder|;
    SpacedGrows(c.emitted, e, n);
    LastRowsSlide(c.emitted, e, n);
    hide NoDuplicates, Spaced, LastRows;
    assert d.emitted == c.emitted + [e];
    assert (c.seenOrder + [row])[1..] == if n > 0 then c.seenOrder[1..] + [row] else [];
  }

  lemma DeliverRemembers(c: Client, row: nat, cursor: nat, replayed: bool)
    requires Remembers(c)
    ensures Remembers(Deliver(c, row, cursor, replayed))
  {
    if row !in c.seen {
      DeliverWindow(c, row, cursor, replayed);
      if !c.closed { DeliverEmits(c, row, cursor, replayed); }
      hide NoDuplicates, Spaced, LastRows;
    }
  }

  lemma StepRemembers(s: System, t: System, a: Action)
    requires Remembers(s.c) && Step(s, t, a)
    ensures Remembers(t.c)
  {
    if a.Dispatch? {
      var row := s.l.dispatching.value;
      DeliverRemembers(s.c, row, if a.stamped then row + 1 else 0, false);
    } else if a.DeliverRow? {
      DeliverRemembers(s.c, a.row, a.row + 1, true);
    }
    hide Deliver, Spaced, NoDuplicates, PageAnswer;
  }

  /**
   * The window over every run: on an open stream it holds exactly the rows of
   * the last 512 emissions, and no row is ever emitted twice within 513
   * consecutive emissions.
   */
  lemma {:induction false} NoDuplicateInWindow(states: seq<System>, actions: seq<Action>, n: nat)
    requires Run(states, actions) && n < |states|
    ensures Remembers(states[n].c)
    ensures var emitted := states[n].c.emitted;
            forall i, j :: 0 <= i < j <= i + 512 && j < |emitted| ==> emitted[i].row != emitted[j].row
  {
    hide Init, Step;
    if n == 0 {
      InitRemembers(states[0]);
    } else {
      NoDuplicateInWindow(states, actions, n - 1);
      StepRemembers(states[n - 1], states[n], actions[n - 1]);
    }
  }

  lemma InitRemembers(s: System)
    requires Init(s)
    ensures Remembers(s.c)
  {
  }

  /**
   * What one delivery does on an open stream, in every reachable state: a row
   * among the last 512 emitted is dropped, any other is emitted once with the
   * stored cursor, which moves to the row's own position exactly for a
   * replayed row or with no replay active or queued.
   */
  lemma DeliverEffect(c: Client, row: nat, cursor: nat, replayed: bool)
    requires Remembers(c) && !c.closed
    ensures var d := Deliver(c, row, cursor, replayed);
            var recent := exists i :: 0 <= i < |c.emitted| && |c.emitted| - 512 <= i && c.emitted[i].row == row;
            && d.cursor == (if cursor != 0 && (replayed || !(c.replaying || c.queued)) then cursor else c.cursor)
            && d.emitted == c.emitted + (if recent then [] else [Emission(row, d.cursor, replayed)])
  {
    var n := |c.seenOrder|;
    var rows := LastRows(c.emitted, n);
    if row in c.seen {
      var k :| 0 <= k < n && rows[k] == row;
      assert c.emitted[|c.emitted| - n + k].row == row;
    } else {
      forall i | 0 <= i < |c.emitted| && |c.emitted| - 512 <= i
        ensures c.emitted[i].row != row
      {
        assert rows[i - (|c.emitted| - n)] == c.emitted[i].row;
      }
    }
  }

  /**
   * What a replay does to the stream: it takes up every request made so far
   * and reads from the stored cursor; at its end the cursor is where its pages
   * led, and it starts over exactly when the open stream was asked again.
   */
  lemma ReplayTakesEffect(s: System, t: System, a: Action)
    requires Inv(s) && Step(s, t, a) && (a.Begin? || a.Finish?)
    ensures a.Begin? ==> !t.c.queued && t.c.replaying && t.w == Reading(s.c.cursor) && t.c.cursor == s.c.cursor
    ensures a.Finish? ==>
              && !t.c.replaying && t.c.queued == s.c.queued
              && t.c.cursor == (if s.w.local != 0 then s.w.local else s.c.cursor)
              && t.w == (if s.c.queued && !s.c.closed then Woken else Idle)
    ensures t.c.emitted == s.c.emitted && t.log == s.log
  {
    hide Inv;
  }

  /** Before a consumer attaches, live fills leave the stream untouched. */
  lemma UnattachedIgnores(s: System, t: System, stamped: bool)
    requires !s.c.started && Step(s, t, Dispatch(stamped))
    ensures t.c == s.c
  {
  }
}
