/**
 * start() of the fill stream at the granularity of its locks: it sets
 * `started` in one critical section and requests the first replay in another.
 * Every other step is that of FillStream.
 */
module FillStart {
  import opened Text
  import opened FillStream

  /** `pending` while start() is between its two critical sections. */
  datatype Starting = Starting(s: System, pending: bool)

  datatype FineAction = SetStarted | RequestFirst | Other(a: Action)

  ghost predicate FineStep(x: Starting, y: Starting, f: FineAction) {
    match f
    case SetStarted => !x.s.c.started && y == Starting(x.s.(c := x.s.c.(started := true)), true)
    case RequestFirst => x.pending && y == Starting(x.s.(c := RequestReplay(x.s.c)), false)
    case Other(a) => !a.AttachConsumer? && Step(x.s, y.s, a) && y.pending == x.pending
  }

  ghost predicate FineRun(states: seq<Starting>, actions: seq<FineAction>) {
    && |states| == |actions| + 1
    && Init(states[0].s) && !states[0].pending
    && forall k :: 0 <= k < |actions| ==> FineStep(states[k], states[k + 1], actions[k])
  }

  /** What the consumer relies on: every emitted cursor and the stored one can be resumed from. */
  ghost predicate Safe(s: System) {
    && Resumable(s.log, s.start, s.c.emitted)
    && (!s.c.closed ==> Covered(s.log, Rows(s.c.emitted), s.start, s.c.cursor))
  }

  /**
   * The race: a live fill with a commit time is handled between the two
   * critical sections, with no replay queued or active, while an earlier fill
   * is still undelivered.
   */
  ghost predicate Races(x: Starting, f: FineAction) {
    && x.pending && f.Other? && f.a.Dispatch? && f.a.stamped && x.s.l.dispatching.Some?
    && !x.s.c.closed && !x.s.c.queued && !x.s.c.replaying
    && !Covered(x.s.log, Rows(x.s.c.emitted), x.s.start, x.s.l.dispatching.value)
  }

  // ------------------------------------------------- the invariant

  /** The state as it would be had start() made its request at once. */
  function Requested(x: Starting): System {
    if x.pending then x.s.(c := RequestReplay(x.s.c)) else x.s
  }

  ghost predicate FineInv(x: Starting) {
    Inv(Requested(x)) && (x.pending ==> x.s.c.started)
  }

  lemma QueueingKeeps(s: System)
    requires Inv(s) && s.c.senders > 0
    ensures Inv(s.(c := s.c.(queued := true)))
  {
    hide Rows, Covered, Resumable;
  }

  lemma GoingIdleKeeps(s: System)
    requires Inv(s) && s.w.Woken? && s.c.senders > 0
    ensures Inv(s.(w := Idle))
  {
    hide Rows, Covered, Resumable;
  }

  /** Steps that do not look at the queued flag happen alike before and after the request. */
  lemma StepCommutes(x: Starting, y: Starting, a: Action)
    requires x.pending && FineStep(x, y, Other(a)) && x.s.c.started
    requires !a.Begin? && !a.Finish? && !a.Dispatch?
    ensures Step(Requested(x), Requested(y), a)
  {
    hide PageAnswer;
  }

  lemma BeginFine(x: Starting, y: Starting)
    requires FineInv(x) && x.pending && FineStep(x, y, Other(Begin))
    ensures FineInv(y)
  {
    var s := Requested(x);
    var t := s.(c := BeginReplay(s.c), w := Reading(s.c.cursor), mark := s.l.live);
    assert Step(s, t, Begin);
    hide Inv, Step;
    StepKeeps(s, t, Begin);
    QueueingKeeps(t);
  }

  lemma FinishFine(x: Starting, y: Starting)
    requires FineInv(x) && x.pending && FineStep(x, y, Other(Finish))
    ensures FineInv(y)
  {
    var s := Requested(x);
    var t := s.(c := EndReplay(s.c, s.w.local), w := if s.c.closed then Idle else Woken);
    assert Step(s, t, Finish);
    hide Inv, Step;
    StepKeeps(s, t, Finish);
    if t.w.Woken? {
      GoingIdleKeeps(t);
    }
  }

  /** The invariant does not depend on which covered cursors an open stream carries. */
  lemma OtherCursor(t: System, c: Client)
    requires Inv(t) && c == t.c.(cursor := c.cursor, emitted := c.emitted) && Rows(c.emitted) == Rows(t.c.emitted)
    requires t.c.started && c.cursor <= |t.log| && forall k :: 0 <= k < |c.emitted| ==> c.emitted[k].cursor <= |t.log|
    requires Resumable(t.log, t.start, c.emitted) && (!c.closed ==> Covered(t.log, Rows(t.c.emitted), t.start, c.cursor))
    ensures Inv(t.(c := c))
  {
    hide Rows, Covered, Resumable;
  }

  /** The client after a delivery differs only in cursors when the queued flag does. */
  lemma QueuedDelivery(c: Client, row: nat, cursor: nat)
    ensures var d, q := Deliver(c, row, cursor, false), Deliver(RequestReplay(c), row, cursor, false);
            && RequestReplay(d) == q.(cursor := d.cursor, emitted := d.emitted)
            && Rows(d.emitted) == Rows(q.emitted)
  {
    var d, q := Deliver(c, row, cursor, false), Deliver(RequestReplay(c), row, cursor, false);
    if row !in c.seen && !c.closed {
      RowsAppend(c.emitted, Emission(row, d.cursor, false));
      RowsAppend(c.emitted, Emission(row, q.cursor, false));
    }
    hide Rows;
  }

  /** A live fill between the two sections is safe when it does not race. */
  lemma DispatchFine(x: Starting, y: Starting, a: Action)
    requires FineInv(x) && x.pending && a.Dispatch? && FineStep(x, y, Other(a)) && !Races(x, Other(a))
    ensures FineInv(y)
  {
    var s, row := Requested(x), x.s.l.dispatching.value;
    var cursor := if a.stamped then row + 1 else 0;
    var t := s.(c := OnLiveFill(s.c, row, a.stamped), l := y.s.l);
    assert Step(s, t, a);
    DeliverFrame(x.s.c, row, cursor, false, |s.log|);
    DispatchSafe(x, row, cursor);
    hide Inv, Deliver, Rows, Resumable, Covered;
    StepKeeps(s, t, a);
    QueuedDelivery(x.s.c, row, cursor);
    OtherCursor(t, RequestReplay(y.s.c));
  }

  lemma DispatchSafe(x: Starting, row: nat, cursor: nat)
    requires FineInv(x) && x.pending && x.s.l.dispatching == Some(row) && (cursor == 0 || cursor == row + 1)
    requires cursor == 0 || !Races(x, Other(Dispatch(true)))
    ensures var d := Deliver(x.s.c, row, cursor, false);
            && Resumable(x.s.log, x.s.start, d.emitted)
            && (!d.closed ==> Covered(x.s.log, Rows(d.emitted), x.s.start, d.cursor))
  {
    if x.s.c.closed {
      DeliverClosed(x.s.c, row, cursor, false);
    } else {
      hide Rows, Covered, Resumable;
      DeliverKeeps(x.s.log, x.s.start, x.s.c, row, cursor, false);
    }
  }

  lemma FineStepKeeps(x: Starting, y: Starting, f: FineAction)
    requires FineInv(x) && FineStep(x, y, f) && !Races(x, f)
    ensures FineInv(y)
  {
    match f
    case SetStarted =>
      assert Step(Requested(x), Requested(y), AttachConsumer);
      StepKeeps(Requested(x), Requested(y), AttachConsumer);
    case RequestFirst =>
    case Other(a) =>
      hide Inv;
      if !x.pending {
        StepKeeps(x.s, y.s, a);
      } else if a.Begin? {
        BeginFine(x, y);
      } else if a.Finish? {
        FinishFine(x, y);
      } else if a.Dispatch? {
        DispatchFine(x, y, a);
      } else {
        StepCommutes(x, y, a);
        StepKeeps(Requested(x), Requested(y), a);
      }
  }

  lemma {:induction false} FineReachable(states: seq<Starting>, actions: seq<FineAction>, n: nat)
    requires FineRun(states, actions) && n < |states|
    requires forall i :: 0 <= i < n ==> !Races(states[i], actions[i])
    ensures FineInv(states[n])
  {
    hide Init, FineStep, Inv, Races;
    if n == 0 {
      InitInv(states[0].s);
    } else {
      FineReachable(states, actions, n - 1);
      FineStepKeeps(states[n - 1], states[n], actions[n - 1]);
    }
  }

  // ------------------------------------------------- the contract at this granularity

  lemma InvIsSafe(x: Starting)
    requires FineInv(x)
    ensures Safe(x.s)
  {
  }

  /**
   * At-least-once with start() in two steps: it holds up to the first race,
   * and a race breaks it on the spot. Whatever happens before, a step leaves
   * the emitted and stored cursors resumable exactly when it does not race.
   */
  lemma StartIsSafeIff(states: seq<Starting>, actions: seq<FineAction>, n: nat)
    requires FineRun(states, actions) && n < |actions|
    requires forall i :: 0 <= i < n ==> !Races(states[i], actions[i])
    ensures Safe(states[n].s) && (Safe(states[n + 1].s) <==> !Races(states[n], actions[n]))
  {
    FineReachable(states, actions, n);
    hide FineInv, Init;
    InvIsSafe(states[n]);
    assert FineStep(states[n], states[n + 1], actions[n]);
    if Races(states[n], actions[n]) {
      RaceBreaks(states[n], states[n + 1], actions[n]);
    } else {
      FineReachable(states, actions, n + 1);
      InvIsSafe(states[n + 1]);
    }
  }

  lemma RaceBreaks(x: Starting, y: Starting, f: FineAction)
    requires FineInv(x) && FineStep(x, y, f) && Races(x, f)
    ensures !Safe(y.s)
  {
    var s, row := x.s, x.s.l.dispatching.value;
    var i :| s.start <= i < row && IsFill(s.log, i) && i !in Rows(s.c.emitted);
    assert y.s.c.cursor == row + 1 && y.s.log == s.log && y.s.start == s.start;
    if row !in s.c.seen {
      RowsAppend(s.c.emitted, Emission(row, row + 1, false));
    }
    assert i !in Rows(y.s.c.emitted);
  }

  lemma OneEmission(log: seq<LogRow>, start: nat, e: Emission)
    ensures Resumable(log, start, [e]) <==> Covered(log, {e.row}, start, e.cursor)
  {
    RowsAppend([], e);
    assert [] + [e] == [e] && [e][..0 + 1] == [e];
    hide Covered;
    assert Rows([e]) == {e.row};
  }

  lemma FirstEmission(start: nat, c: Client, row: nat, stamped: bool)
    requires c == Client(true, start, false, false, false, 0, {}, [], false, [])
    ensures OnLiveFill(c, row, stamped).emitted == [Emission(row, if stamped then row + 1 else start, false)]
  {
    assert c.emitted == [] && row !in c.seen && |c.seenOrder| == 0;
  }

  /**
   * For a stream that has delivered nothing yet: a live fill in between is safe
   * exactly when it moves no cursor or no fill precedes it.
   */
  lemma FirstFillIsSafeIff(log: seq<LogRow>, start: nat, c: Client, row: nat, stamped: bool)
    requires c == Client(true, start, false, false, false, 0, {}, [], false, []) && start <= row
    ensures Resumable(log, start, OnLiveFill(c, row, stamped).emitted) <==> !stamped || NoFills(log, start, row)
  {
    var e := Emission(row, if stamped then row + 1 else start, false);
    hide OnLiveFill, Resumable, Rows;
    FirstEmission(start, c, row, stamped);
    OneEmission(log, start, e);
    if stamped && Covered(log, {row}, start, row + 1) {
      forall i | start <= i < row
        ensures !IsFill(log, i)
      {
        assert i !in {row};
      }
    }
  }

  /** The states of a run with a race: row 0 arrives before anyone listens, row 1 between the two critical sections. */
  function Racing(k: nat): Starting
    requires k < 8
  {
    var idle := Client(false, 0, false, false, false, 0, {}, [], false, []);
    var quiet := System([], 0, idle, Idle, Link(0, 1, 0, false, None), 0);
    var one := quiet.(log := [FillRow]);
    var two := one.(log := [FillRow, FillRow], l := Link(1, 2, 1, false, None));
    if k == 0 then Starting(quiet, false)
    else if k == 1 then Starting(one, false)
    else if k == 2 then Starting(one.(l := Link(1, 2, 0, false, Some(0))), false)
    else if k == 3 then Starting(one.(l := Link(1, 2, 1, false, None)), false)
    else if k == 4 then Starting(two, false)
    else if k == 5 then Starting(two.(l := Link(2, 3, 1, false, Some(1))), false)
    else if k == 6 then Starting(two.(l := Link(2, 3, 1, false, Some(1)), c := idle.(started := true)), true)
    else Starting(two.(l := Link(2, 3, 2, false, None), c := OnLiveFill(idle.(started := true), 1, true)), true)
  }

  const RACING: seq<FineAction> := [
    Other(Append(FillRow)), Other(Arrive(Some(0))), Other(Dispatch(true)), Other(Append(FillRow)), Other(Arrive(Some(1))),
    SetStarted, Other(Dispatch(true))]

  lemma RacingSteps(k: nat)
    requires k < 7
    ensures FineStep(Racing(k), Racing(k + 1), RACING[k])
  {
    hide WorkerStep;
    assert [FillRow] + [FillRow] == [FillRow, FillRow];
  }

  /** The race is reachable: row 1 is emitted with a cursor past row 0, which was never delivered. */
  lemma StartRace()
    ensures exists states: seq<Starting>, actions: seq<FineAction> ::
              && FineRun(states, actions) && |actions| == 7 && states[7].s.c.emitted == [Emission(1, 2, false)]
              && Races(states[6], actions[6]) && !Safe(states[7].s)
  {
    var states := seq(8, k requires 0 <= k < 8 => Racing(k));
    forall k | 0 <= k < 7
      ensures FineStep(states[k], states[k + 1], RACING[k])
    {
      RacingSteps(k);
    }
    assert IsFill(states[6].s.log, 0);
    assert !Covered(states[6].s.log, Rows(states[6].s.c.emitted), 0, 1);
    assert Races(states[6], RACING[6]);
    var e := states[7].s.c.emitted;
    assert 0 !in Rows(e) && IsFill(states[7].s.log, 0);
    hide FineStep;
    assert FineRun(states, RACING);
  }
}
