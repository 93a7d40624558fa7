/**
 * deliver() of the fill stream at the granularity of its locks: it commits a
 * row under the lock and emits it after unlocking. The live tail and the
 * replay worker each have at most one row in between. Every commit is a step
 * of FillStream, whose emissions are here the rows committed so far.
 */
module FillEmit {
  import opened Text
  import opened FillStream

  /** `out` is what the consumer has been given; `live` and `replay` are committed and not emitted yet. */
  datatype Split = Split(s: System, out: seq<Emission>, live: Option<Emission>, replay: Option<Emission>)

  datatype SplitAction = Commit(a: Action) | EmitLive | EmitReplay

  /** What a commit adds to the rows committed, if anything. */
  function Added(s: System, t: System): Option<Emission> {
    if |t.c.emitted| > |s.c.emitted| then Some(t.c.emitted[|s.c.emitted|]) else None
  }

  predicate ByWorker(a: Action) {
    a.Wake? || a.Begin? || a.ReadFails? || a.ReadPage? || a.DeliverRow? || a.PageDone? || a.SeeClosed? || a.Finish?
  }

  /** The read loop does not go on before its row is emitted, and neither does the worker. */
  predicate Blocked(x: Split, a: Action) {
    || (x.live.Some? && (a.Arrive? || a.Dispatch? || a.Resync?))
    || (x.replay.Some? && ByWorker(a))
  }

  function Emitted(x: Split, e: Emission): seq<Emission> { if x.s.c.closed then x.out else x.out + [e] }

  ghost predicate SplitStep(x: Split, y: Split, f: SplitAction) {
    match f
    case Commit(a) =>
      && !Blocked(x, a) && Step(x.s, y.s, a)
      && y == x.(s := y.s,
                 live := if a.Dispatch? then Added(x.s, y.s) else x.live,
                 replay := if a.DeliverRow? then Added(x.s, y.s) else x.replay)
    case EmitLive => x.live.Some? && y == x.(out := Emitted(x, x.live.value), live := None)
    case EmitReplay => x.replay.Some? && y == x.(out := Emitted(x, x.replay.value), replay := None)
  }

  ghost predicate SplitRun(states: seq<Split>, actions: seq<SplitAction>) {
    && |states| == |actions| + 1
    && Init(states[0].s) && states[0] == Split(states[0].s, [], None, None)
    && forall k :: 0 <= k < |actions| ==> SplitStep(states[k], states[k + 1], actions[k])
  }

  /** `e` would overtake `other`: a row below the cursor it carries is still between unlock and emit. */
  ghost predicate Overtakes(x: Split, e: Emission, other: Option<Emission>) {
    other.Some? && x.s.start <= other.value.row < e.cursor && other.value.row !in Rows(x.out) + {e.row}
  }

  /** An open stream emits a row past another one. */
  ghost predicate Races(x: Split, f: SplitAction) {
    && !x.s.c.closed
    && match f
       case Commit(_) => false
       case EmitLive => x.live.Some? && Overtakes(x, x.live.value, x.replay)
       case EmitReplay => x.replay.Some? && Overtakes(x, x.replay.value, x.live)
  }

  // ------------------------------------------------- the invariant

  /** A row committed by an open stream: it is a fill, and all before its cursor is committed. */
  ghost predicate Committed(s: System, e: Emission) {
    IsFill(s.log, e.row) && e.cursor <= |s.log| && Covered(s.log, Rows(s.c.emitted), s.start, e.cursor)
  }

  ghost function PendingRow(e: Option<Emission>): set<nat> { if e.Some? then {e.value.row} else {} }

  ghost predicate SplitInv(x: Split) {
    && Inv(x.s)
    && Resumable(x.s.log, x.s.start, x.out)
    && (forall k :: 0 <= k < |x.out| ==> x.out[k].cursor <= |x.s.log|)
    && (!x.s.c.closed ==>
          && Rows(x.s.c.emitted) == Rows(x.out) + PendingRow(x.live) + PendingRow(x.replay)
          && (x.live.Some? ==> Committed(x.s, x.live.value))
          && (x.replay.Some? ==> Committed(x.s, x.replay.value)))
  }

  /** One more emission keeps the rest resumable, and is itself exactly when all before its cursor is out. */
  lemma OneMore(log: seq<LogRow>, start: nat, out: seq<Emission>, e: Emission)
    requires Resumable(log, start, out)
    ensures Resumable(log, start, out + [e]) <==> Covered(log, Rows(out) + {e.row}, start, e.cursor)
  {
    var all := out + [e];
    RowsAppend(out, e);
    hide Rows, Covered;
    assert all[..|out| + 1] == all;
    forall k | 0 <= k < |out|
      ensures Covered(log, Rows(all[..k + 1]), start, all[k].cursor)
    {
      assert all[..k + 1] == out[..k + 1];
    }
    if Covered(log, Rows(all), start, e.cursor) {
      forall k | 0 <= k < |all|
        ensures Covered(log, Rows(all[..k + 1]), start, all[k].cursor)
      {
      }
    } else {
      assert !Covered(log, Rows(all[..|out| + 1]), start, all[|out|].cursor);
    }
  }

  /** With one other row possibly in between, that is exactly when it does not overtake. */
  lemma EmitIff(x: Split, e: Emission, other: Option<Emission>)
    requires Resumable(x.s.log, x.s.start, x.out) && Committed(x.s, e)
    requires other.Some? ==> IsFill(x.s.log, other.value.row)
    requires Rows(x.s.c.emitted) == Rows(x.out) + {e.row} + PendingRow(other)
    ensures Resumable(x.s.log, x.s.start, x.out + [e]) <==> !Overtakes(x, e, other)
  {
    OneMore(x.s.log, x.s.start, x.out, e);
    hide Rows, Resumable;
    if Overtakes(x, e, other) {
      assert IsFill(x.s.log, other.value.row);
    }
  }

  lemma EmitKeeps(x: Split, y: Split, f: SplitAction)
    requires SplitInv(x) && SplitStep(x, y, f) && !f.Commit?
    ensures Resumable(y.s.log, y.s.start, y.out) <==> !Races(x, f)
    ensures !Races(x, f) ==> SplitInv(y)
  {
    var e := if f.EmitLive? then x.live.value else x.replay.value;
    var other := if f.EmitLive? then x.replay else x.live;
    if !x.s.c.closed {
      assert Rows(x.out) + PendingRow(x.live) + PendingRow(x.replay) == Rows(x.out) + {e.row} + PendingRow(other);
      EmitIff(x, e, other);
      RowsAppend(x.out, e);
    }
    hide Rows, Resumable, Inv, Overtakes;
  }

  /** The emissions of a step: none, or one more. */
  lemma CommitAdds(s: System, t: System, a: Action)
    requires Inv(s) && Step(s, t, a)
    ensures s.c.emitted <= t.c.emitted && |t.c.emitted| <= |s.c.emitted| + 1 && (s.c.closed ==> t.c.closed)
    ensures !a.Dispatch? && !a.DeliverRow? ==> t.c.emitted == s.c.emitted
    ensures Added(s, t).Some? ==> IsFill(t.log, Added(s, t).value.row)
    ensures s.log <= t.log && t.start == s.start
  {
    hide Deliver, LinkStep, WorkerStep, ConsumerStep, Inv;
    if LinkStep(s, t, a) {
      LinkAdds(s, t, a);
    } else if WorkerStep(s, t, a) {
      WorkerAdds(s, t, a);
    } else {
      ConsumerAdds(s, t, a);
    }
  }

  /** deliver commits the row it is given, or nothing. */
  lemma DeliverAdds(c: Client, row: nat, cursor: nat, replayed: bool)
    ensures var d := Deliver(c, row, cursor, replayed);
            && d.closed == c.closed
            && (|| d.emitted == c.emitted
                || (|d.emitted| == |c.emitted| + 1 && c.emitted <= d.emitted && d.emitted[|c.emitted|].row == row))
  {
  }

  lemma LinkAdds(s: System, t: System, a: Action)
    requires Inv(s) && LinkStep(s, t, a)
    ensures s.c.emitted <= t.c.emitted && |t.c.emitted| <= |s.c.emitted| + 1 && (s.c.closed ==> t.c.closed)
    ensures !a.Dispatch? && !a.DeliverRow? ==> t.c.emitted == s.c.emitted
    ensures Added(s, t).Some? ==> IsFill(t.log, Added(s, t).value.row)
    ensures s.log <= t.log && t.start == s.start
  {
    if a.Dispatch? {
      var row := s.l.dispatching.value;
      DeliverAdds(s.c, row, if a.stamped then row + 1 else 0, false);
    }
    hide Deliver, NoFills, WorkerSound, OpenCovered, TailCovered, Resumable;
  }

  lemma WorkerAdds(s: System, t: System, a: Action)
    requires WorkerStep(s, t, a)
    ensures s.c.emitted <= t.c.emitted && |t.c.emitted| <= |s.c.emitted| + 1 && (s.c.closed ==> t.c.closed)
    ensures !a.Dispatch? && !a.DeliverRow? ==> t.c.emitted == s.c.emitted
    ensures Added(s, t).Some? ==> IsFill(t.log, Added(s, t).value.row)
    ensures s.log <= t.log && t.start == s.start
  {
    if a.DeliverRow? {
      DeliverAdds(s.c, a.row, a.row + 1, true);
    }
    hide Deliver, NoFills, PageAnswer;
  }

  lemma ConsumerAdds(s: System, t: System, a: Action)
    requires ConsumerStep(s, t, a)
    ensures t.c.emitted == s.c.emitted && (s.c.closed ==> t.c.closed) && t.log == s.log && t.start == s.start
  {
  }

  lemma CommitKeeps(x: Split, y: Split, a: Action)
    requires SplitInv(x) && SplitStep(x, y, Commit(a))
    ensures SplitInv(y)
  {
    var s, t := x.s, y.s;
    StepKeeps(s, t, a);
    CommitAdds(s, t, a);
    OutStays(s, t, x.out);
    if !t.c.closed {
      var added := Added(s, t);
      AddedRows(s, t);
      if x.live.Some? { CommittedStays(s, t, x.live.value); }
      if x.replay.Some? { CommittedStays(s, t, x.replay.value); }
      if added.Some? { JustCommitted(s, t); }
      hide Rows, Resumable, Inv, Committed, Step;
      assert a.Dispatch? ==> x.live.None?;
      assert a.DeliverRow? ==> x.replay.None?;
    }
  }

  lemma OutStays(s: System, t: System, out: seq<Emission>)
    requires s.log <= t.log && t.start == s.start && Resumable(s.log, s.start, out)
    requires forall k :: 0 <= k < |out| ==> out[k].cursor <= |s.log|
    ensures Resumable(t.log, t.start, out)
  {
    forall k | 0 <= k < |out|
      ensures Covered(t.log, Rows(out[..k + 1]), t.start, out[k].cursor)
    {
      CoveredGrows(s.log, Rows(out[..k + 1]), t.log, Rows(out[..k + 1]), s.start, out[k].cursor);
    }
  }

  lemma AddedRows(s: System, t: System)
    requires s.c.emitted <= t.c.emitted && |t.c.emitted| <= |s.c.emitted| + 1
    ensures Rows(t.c.emitted) == Rows(s.c.emitted) + PendingRow(Added(s, t))
  {
    if |t.c.emitted| > |s.c.emitted| {
      var e := t.c.emitted[|s.c.emitted|];
      assert t.c.emitted == s.c.emitted + [e];
      RowsAppend(s.c.emitted, e);
    } else {
      assert t.c.emitted == s.c.emitted;
    }
  }

  lemma CommittedStays(s: System, t: System, e: Emission)
    requires Committed(s, e) && s.log <= t.log && t.start == s.start && s.c.emitted <= t.c.emitted
    ensures Committed(t, e)
  {
    assert Rows(s.c.emitted) <= Rows(t.c.emitted) by {
      forall r | r in Rows(s.c.emitted)
        ensures r in Rows(t.c.emitted)
      {
        var k :| 0 <= k < |s.c.emitted| && s.c.emitted[k].row == r;
        assert t.c.emitted[k].row == r;
      }
    }
    CoveredGrows(s.log, Rows(s.c.emitted), t.log, Rows(t.c.emitted), s.start, e.cursor);
  }

  lemma JustCommitted(s: System, t: System)
    requires Inv(t) && Added(s, t).Some? && IsFill(t.log, Added(s, t).value.row) && |t.c.emitted| == |s.c.emitted| + 1
    ensures Committed(t, Added(s, t).value)
  {
    var k := |s.c.emitted|;
    assert t.c.emitted[..k + 1] == t.c.emitted;
    assert Covered(t.log, Rows(t.c.emitted[..k + 1]), t.start, t.c.emitted[k].cursor);
  }

  lemma {:induction false} SplitReachable(states: seq<Split>, actions: seq<SplitAction>, n: nat)
    requires SplitRun(states, actions) && n < |states|
    requires forall i :: 0 <= i < n ==> !Races(states[i], actions[i])
    ensures SplitInv(states[n])
  {
    if n == 0 {
      InitInv(states[0].s);
    } else {
      hide Init, SplitInv, Races;
      SplitReachable(states, actions, n - 1);
      var x, y, f := states[n - 1], states[n], actions[n - 1];
      assert SplitStep(x, y, f);
      if f.Commit? {
        CommitKeeps(x, y, f.a);
      } else {
        EmitKeeps(x, y, f);
      }
    }
  }

  // ------------------------------------------------- the contract at this granularity

  /**
   * At-least-once with the emission after the unlock: what the consumer has
   * been given stays resumable up to the first overtaking, and a step breaks
   * it exactly when it emits a row past a lower one still to be emitted.
   */
  lemma EmitIsSafeIff(states: seq<Split>, actions: seq<SplitAction>, n: nat)
    requires SplitRun(states, actions) && n < |actions|
    requires forall i :: 0 <= i < n ==> !Races(states[i], actions[i])
    ensures var x, y := states[n], states[n + 1];
            && Resumable(x.s.log, x.s.start, x.out)
            && (Resumable(y.s.log, y.s.start, y.out) <==> !Races(x, actions[n]))
  {
    SplitReachable(states, actions, n);
    var x, y, f := states[n], states[n + 1], actions[n];
    assert SplitStep(x, y, f);
    if f.Commit? {
      CommitKeeps(x, y, f.a);
    } else {
      EmitKeeps(x, y, f);
    }
  }

  /** Once nothing is in between, the consumer of an open stream has everything committed. */
  lemma AllOutWhenNothingBetween(states: seq<Split>, actions: seq<SplitAction>, n: nat)
    requires SplitRun(states, actions) && n < |states|
    requires forall i :: 0 <= i < n ==> !Races(states[i], actions[i])
    requires states[n].live.None? && states[n].replay.None? && !states[n].s.c.closed
    ensures Rows(states[n].out) == Rows(states[n].s.c.emitted)
    ensures Covered(states[n].s.log, Rows(states[n].out), states[n].s.start, states[n].s.c.cursor)
  {
    SplitReachable(states, actions, n);
  }

  // ------------------------------------------------- a run with an overtaking

  /** The consumer attaches after row 0 has passed it by, and the first replay commits row 0. */
  function Attaching(k: nat): System
    requires k < 10
  {
    var idle := Client(false, 0, false, false, false, 0, {}, [], false, []);
    var replaying := Client(true, 0, true, false, false, 0, {}, [], false, []);
    var quiet := System([FillRow], 0, idle, Idle, Link(1, 2, 1, false, None), 0);
    if k == 0 then System([], 0, idle, Idle, Link(0, 1, 0, false, None), 0)
    else if k == 1 then System([FillRow], 0, idle, Idle, Link(0, 1, 0, false, None), 0)
    else if k == 2 then System([FillRow], 0, idle, Idle, Link(1, 2, 0, false, Some(0)), 0)
    else if k == 3 then quiet
    else if k == 4 then quiet.(c := Client(true, 0, false, true, false, 1, {}, [], false, []))
    else if k == 5 then quiet.(c := Client(true, 0, false, true, true, 0, {}, [], false, []))
    else if k == 6 then quiet.(c := Client(true, 0, false, true, false, 0, {}, [], false, []), w := Woken)
    else if k == 7 then quiet.(c := replaying, w := Reading(0), mark := 1)
    else if k == 8 then quiet.(c := replaying, w := Delivering(0, 0, 1, true, true), mark := 1)
    else quiet.(c := replaying.(cursor := 1, seen := {0}, seenOrder := [0], emitted := [Emission(0, 1, true)]),
                w := Delivering(0, 1, 1, true, true), mark := 1)
  }

  /** Row 0 is held between unlock and emit while row 1 is committed and emitted. */
  function Overtaking(k: nat): Split
    requires k < 14
  {
    var held := Attaching(9).(log := [FillRow, FillRow]);
    var first, second := Emission(0, 1, true), Emission(1, 1, false);
    var passed := held.(c := held.c.(seen := {0, 1}, seenOrder := [0, 1], emitted := [first, second]),
                        l := Link(2, 3, 2, false, None));
    if k < 9 then Split(Attaching(k), [], None, None)
    else if k == 9 then Split(Attaching(9), [], None, Some(first))
    else if k == 10 then Split(held, [], None, Some(first))
    else if k == 11 then Split(held.(l := Link(2, 3, 1, false, Some(1))), [], None, Some(first))
    else if k == 12 then Split(passed, [], Some(second), Some(first))
    else Split(passed, [second], None, Some(first))
  }

  const OVERTAKING: seq<SplitAction> := [
    Commit(Append(FillRow)), Commit(Arrive(Some(0))), Commit(Dispatch(true)), Commit(AttachConsumer), Commit(Token), Commit(Wake),
    Commit(Begin), Commit(ReadPage(1, true, true)), Commit(DeliverRow(0)), Commit(Append(FillRow)), Commit(Arrive(Some(1))),
    Commit(Dispatch(true)), EmitLive]

  lemma AttachingSteps(k: nat)
    requires k < 7
    ensures SplitStep(Overtaking(k), Overtaking(k + 1), OVERTAKING[k])
  {
  }

  lemma ReplayingSteps(k: nat)
    requires 7 <= k < 9
    ensures SplitStep(Overtaking(k), Overtaking(k + 1), OVERTAKING[k])
  {
    assert CountFills([FillRow], 1, 1) == 0;
    assert CountFills([FillRow], 0, 1) == 1;
    assert [] + [0] == [0] && {} + {0} == {0};
  }

  lemma OvertakingSteps(k: nat)
    requires 9 <= k < 13
    ensures SplitStep(Overtaking(k), Overtaking(k + 1), OVERTAKING[k])
  {
    assert [FillRow] + [FillRow] == [FillRow, FillRow];
    assert [0] + [1] == [0, 1] && {0} + {1} == {0, 1};
    assert [Emission(0, 1, true)] + [Emission(1, 1, false)] == [Emission(0, 1, true), Emission(1, 1, false)];
  }

  /** Overtaking is reachable: the consumer is given row 1 with a cursor past row 0, which it has not been given. */
  lemma EmitRace()
    ensures exists states: seq<Split>, actions: seq<SplitAction> ::
              && SplitRun(states, actions) && |actions| == 13 && Races(states[12], actions[12])
              && states[13].out == [Emission(1, 1, false)]
              && !Resumable(states[13].s.log, states[13].s.start, states[13].out)
  {
    var states := seq(14, k requires 0 <= k < 14 => Overtaking(k));
    forall k | 0 <= k < 13
      ensures SplitStep(states[k], states[k + 1], OVERTAKING[k])
    {
      hide SplitStep, Overtaking;
      if k < 7 { AttachingSteps(k); } else if k < 9 { ReplayingSteps(k); } else { OvertakingSteps(k); }
    }
    hide SplitStep;
    assert SplitRun(states, OVERTAKING);
    assert Races(states[12], OVERTAKING[12]);
    var y := states[13];
    assert IsFill(y.s.log, 0) && 0 !in Rows(y.out[..0 + 1]);
    assert !Covered(y.s.log, Rows(y.out[..0 + 1]), 0, y.out[0].cursor);
  }
}
