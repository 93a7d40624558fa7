/**
 * The catch-up-then-tail fill stream of streams.go, fed by the delivery
 * sequence of websocket.go: a durable log, a lossy live tail, a dedupe window,
 * a resume cursor and a replay worker.
 *
 * The log is a sequence of ledger rows, some of them fills. A fill's id is its
 * row; a cursor is the number of rows at or before it, so that the empty
 * cursor is 0 and the cursor of row r is r + 1.
 */
module FillStream {
  import opened Text

  datatype LogRow = FillRow | OtherRow

  /** One delivery to the consumer, with the resume cursor it carries. */
  datatype Emission = Emission(row: nat, cursor: nat, replayed: bool)

  const PAGE_LIMIT := 500
  const DEDUPE_WINDOW := 512

  /** The stream's own fields, and what it has emitted. */
  datatype Client = Client(
    started: bool,
    cursor: nat,
    replaying: bool,
    queued: bool,
    token: bool,
    senders: nat,
    seen: set<nat>,
    seenOrder: seq<nat>,
    closed: bool,
    emitted: seq<Emission>)

  // ------------------------------------------------- the critical sections

  /** deliver: dedupe, advance the cursor, emit. */
  function Deliver(c: Client, row: nat, cursor: nat, replayed: bool): Client {
    var dup := row in c.seen;
    var order := c.seenOrder + [row];
    var evict := |order| > DEDUPE_WINDOW;
    var cur := if cursor != 0 && (replayed || (!c.replaying && !c.queued)) then cursor else c.cursor;
    if dup then c.(cursor := cur)
    else c.(seen := if evict then c.seen + {row} - {order[0]} else c.seen + {row},
            seenOrder := if evict then order[1..] else order,
            cursor := cur,
            emitted := if c.closed then c.emitted else c.emitted + [Emission(row, cur, replayed)])
  }

  /** The flag half of scheduleReplay; the token is still to be sent. */
  function RequestReplay(c: Client): Client { c.(queued := true, senders := c.senders + 1) }

  /** The channel half of scheduleReplay. */
  function SendToken(c: Client): Client
    requires c.senders > 0
  {
    c.(senders := c.senders - 1, token := true)
  }

  function Start(c: Client): Client {
    if c.started then c else RequestReplay(c.(started := true))
  }

  /** A live event whose fill has a commit time, or does not. */
  function OnLiveFill(c: Client, row: nat, stamped: bool): Client {
    if !c.started then c else Deliver(c, row, if stamped then row + 1 else 0, false)
  }

  function BeginReplay(c: Client): Client { c.(queued := false, replaying := true) }

  function EndReplay(c: Client, local: nat): Client {
    c.(cursor := if local != 0 then local else c.cursor, replaying := false)
  }

  // ------------------------------------------------- the delivery sequence

  /** checkGap: does a message numbered seq, after one numbered last, reveal a hole? */
  predicate RevealsHole(last: nat, seqNo: nat) { last > 0 && seqNo > last + 1 }

  /** The read side of the connection. `live` bounds the rows the live tail has been past. */
  datatype Link = Link(lastSeq: nat, nextSeq: nat, live: nat, overflow: bool, dispatching: Option<nat>)

  /** A loss the client has not been told about yet: a hole, or events dropped before numbering. */
  predicate LossPending(l: Link) { RevealsHole(l.lastSeq, l.nextSeq) || l.overflow }

  // ------------------------------------------------- the whole system

  /** The replay worker. A page is the part of the log from `pos` to `next` still to be delivered. */
  datatype Worker =
    | Idle
    | Woken
    | Reading(local: nat)
    | Delivering(local: nat, pos: nat, next: nat, partial: bool, echoed: bool)
    | Ending(local: nat, head: nat)
    | Stopped

  /** `mark` is where the live tail was when the running replay began. */
  datatype System = System(
    log: seq<LogRow>,
    start: nat,
    c: Client,
    w: Worker,
    l: Link,
    mark: nat)

  predicate IsFill(log: seq<LogRow>, i: int) { 0 <= i < |log| && log[i].FillRow? }

  ghost predicate NoFills(log: seq<LogRow>, a: nat, b: nat) {
    forall i :: a <= i < b ==> !IsFill(log, i)
  }

  function CountFills(log: seq<LogRow>, a: nat, b: nat): nat
    requires a <= b <= |log|
    decreases b - a
  {
    if a == b then 0 else (if log[a].FillRow? then 1 else 0) + CountFills(log, a + 1, b)
  }

  /** A page answer: rows up to `next`, at most a page of fills, and partial only at the head of the log. */
  ghost predicate PageAnswer(log: seq<LogRow>, local: nat, next: nat, partial: bool) {
    && local <= next <= |log|
    && CountFills(log, local, next) <= PAGE_LIMIT
    && (partial <==> CountFills(log, local, next) < PAGE_LIMIT)
    && (partial ==> next == |log|)
  }

  datatype Action =
    | Append(added: LogRow)
    | AttachConsumer
    | CloseStream
    | Token
    | LoseNumbered(past: nat)
    | DropUnnumbered(past: nat)
    | Arrive(event: Option<nat>)
    | Dispatch(stamped: bool)
    | Resync
    | Reauthenticate(firstSeq: nat, past: nat)
    | Rotate(firstSeq: nat)
    | Wake
    | Begin
    | ReadFails
    | ReadPage(next: nat, partial: bool, echoed: bool)
    | DeliverRow(row: nat)
    | PageDone
    | SeeClosed
    | Finish

  /** The position just after the last fill of a log: what the newest-first, one-row listing returns. */
  function HeadOfFills(log: seq<LogRow>): (h: nat)
    ensures h <= |log| && NoFills(log, h, |log|) && (h > 0 ==> IsFill(log, h - 1))
  {
    if log == [] then 0
    else if log[|log| - 1].FillRow? then |log|
    else
      var h := HeadOfFills(log[..|log| - 1]);
      assert forall i :: h <= i < |log| - 1 ==> (IsFill(log, i) <==> IsFill(log[..|log| - 1], i));
      h
  }

  /** WatchRealmFills: a stream opens at the cursor it is given, and with none at the head of the log. */
  function Opening(log: seq<LogRow>, from: nat): nat {
    if from != 0 then from else HeadOfFills(log)
  }

  ghost predicate Init(s: System) {
    && s.start <= |s.log| && s.start == Opening(s.log, s.start) && s.l.live <= |s.log|
    && s.c == Client(false, s.start, false, false, false, 0, {}, [], false, [])
    && s.w == Idle && s.mark == 0
    && s.l.lastSeq == 0 && s.l.nextSeq > 0 && !s.l.overflow && s.l.dispatching.None?
  }

  /**
   * Steps of the environment: the log grows, numbered messages arrive in log
   * order or are lost after at least one has arrived, unnumbered losses are
   * announced before the next event, re-authentication announces itself, and a
   * rotation happens only when no loss is outstanding.
   */
  ghost predicate LinkStep(s: System, t: System, a: Action) {
    var l := s.l;
    match a
    case Append(row) => t == s.(log := s.log + [row])
    case LoseNumbered(live) =>
      l.lastSeq > 0 && l.live <= live <= |s.log| && t == s.(l := l.(nextSeq := l.nextSeq + 1, live := live))
    case DropUnnumbered(live) =>
      l.live <= live <= |s.log| && t == s.(l := l.(overflow := true, live := live))
    case Arrive(row) =>
      && !l.overflow && l.dispatching.None?
      && (row.Some? ==> IsFill(s.log, row.value) && NoFills(s.log, l.live, row.value))
      && t == s.(l := l.(lastSeq := l.nextSeq, nextSeq := l.nextSeq + 1, dispatching := row),
                 c := if RevealsHole(l.lastSeq, l.nextSeq) then RequestReplay(s.c) else s.c)
    case Dispatch(stamped) =>
      && l.dispatching.Some?
      && var row := l.dispatching.value;
         t == s.(c := OnLiveFill(s.c, row, stamped),
                 l := l.(dispatching := None, live := if l.live <= row then row + 1 else l.live))
    case Resync =>
      && l.dispatching.None?
      && t == s.(l := l.(lastSeq := l.nextSeq, nextSeq := l.nextSeq + 1, overflow := false), c := RequestReplay(s.c))
    case Reauthenticate(firstSeq, live) =>
      && firstSeq > 0 && l.live <= live <= |s.log|
      && t == s.(l := l.(lastSeq := 0, nextSeq := firstSeq, overflow := false, live := live), c := RequestReplay(s.c))
    case Rotate(firstSeq) =>
      && firstSeq > 0 && !LossPending(l)
      && t == s.(l := l.(lastSeq := 0, nextSeq := firstSeq))
    case _ => false
  }

  ghost predicate WorkerStep(s: System, t: System, a: Action) {
    match a
    case Wake => s.w.Idle? && s.c.started && s.c.token && t == s.(w := Woken, c := s.c.(token := false))
    case Begin => s.w.Woken? && t == s.(c := BeginReplay(s.c), w := Reading(s.c.cursor), mark := s.l.live)
    case ReadFails => s.w.Reading? && t == if s.c.closed then s.(w := Stopped) else s
    case ReadPage(next, partial, echoed) =>
      && s.w.Reading? && !s.c.closed && PageAnswer(s.log, s.w.local, next, partial)
      && t == s.(w := Delivering(s.w.local, s.w.local, next, partial, echoed))
    case DeliverRow(row) =>
      && s.w.Delivering? && s.w.pos <= row < s.w.next && IsFill(s.log, row) && NoFills(s.log, s.w.pos, row)
      && t == s.(c := Deliver(s.c, row, row + 1, true), w := s.w.(pos := row + 1))
    case PageDone =>
      && s.w.Delivering? && NoFills(s.log, s.w.pos, s.w.next)
      && var local := if s.w.echoed && s.w.next != 0 then s.w.next else s.w.local;
         t == s.(w := if s.w.partial then Ending(local, s.w.next) else Reading(local))
    case SeeClosed => s.w.Reading? && s.c.closed && t == s.(w := Ending(s.w.local, 0))
    case Finish =>
      && s.w.Ending?
      && t == s.(c := EndReplay(s.c, s.w.local), w := if s.c.queued && !s.c.closed then Woken else Idle)
    case _ => false
  }

  ghost predicate ConsumerStep(s: System, t: System, a: Action) {
    match a
    case AttachConsumer => t == s.(c := Start(s.c))
    case CloseStream => t == s.(c := s.c.(closed := true))
    case Token => s.c.senders > 0 && t == s.(c := SendToken(s.c))
    case _ => false
  }

  ghost predicate Step(s: System, t: System, a: Action) {
    LinkStep(s, t, a) || WorkerStep(s, t, a) || ConsumerStep(s, t, a)
  }

  /** A run: states and the actions between them, in any interleaving. */
  ghost predicate Run(states: seq<System>, actions: seq<Action>) {
    && |states| == |actions| + 1
    && Init(states[0])
    && forall k :: 0 <= k < |actions| ==> Step(states[k], states[k + 1], actions[k])
  }

  // ------------------------------------------------- what has been delivered

  ghost function Rows(emitted: seq<Emission>): set<nat> {
    set k | 0 <= k < |emitted| :: emitted[k].row
  }

  /** Every fill in [a, b) is among the rows given. */
  ghost predicate Covered(log: seq<LogRow>, rows: set<nat>, a: nat, b: nat) {
    forall i :: a <= i < b && IsFill(log, i) ==> i in rows
  }

  /** Every emission so far can be resumed from: what precedes its cursor had been emitted by then. */
  ghost predicate Resumable(log: seq<LogRow>, start: nat, emitted: seq<Emission>) {
    forall k :: 0 <= k < |emitted| ==> Covered(log, Rows(emitted[..k + 1]), start, emitted[k].cursor)
  }

  /** Cursors never point past the log. */
  ghost predicate Bounded(s: System) {
    && s.start <= |s.log| && s.c.cursor <= |s.log| && s.l.live <= |s.log| && s.mark <= |s.log|
    && (forall k :: 0 <= k < |s.c.emitted| ==> s.c.emitted[k].cursor <= |s.log|)
    && (s.w.Reading? ==> s.w.local <= |s.log|)
    && (s.w.Delivering? ==> s.w.local <= s.w.pos <= |s.log| && s.w.local <= s.w.next <= |s.log|)
    && (s.w.Delivering? && s.w.partial ==> s.mark <= s.w.next)
    && (s.w.Ending? ==> s.w.local <= |s.log| && s.w.head <= |s.log| && (s.mark <= s.w.head || s.c.closed))
    && (s.l.dispatching.Some? ==> IsFill(s.log, s.l.dispatching.value) && NoFills(s.log, s.l.live, s.l.dispatching.value))
    && s.l.nextSeq > s.l.lastSeq
  }

  ghost predicate WorkerSound(s: System) {
    && (s.c.replaying <==> s.w.Reading? || s.w.Delivering? || s.w.Ending? || s.w.Stopped?)
    && (s.c.replaying || s.w.Woken? ==> s.c.started)
    && (s.w.Stopped? ==> s.c.closed)
    && (s.c.started && s.c.queued && !s.c.closed ==> s.c.token || s.c.senders > 0 || !s.w.Idle?)
    && (!s.c.started ==> s.c.cursor == s.start && s.c.emitted == [] && s.c.seen == {} && s.c.seenOrder == [])
  }

  /** The coverage facts that hold while the stream is open. */
  ghost predicate OpenCovered(s: System) {
    var rows := Rows(s.c.emitted);
    && s.c.seen <= rows
    && Covered(s.log, rows, s.start, s.c.cursor)
    && (s.w.Reading? || s.w.Ending? ==> Covered(s.log, rows, s.start, s.w.local))
    && (s.w.Delivering? ==> Covered(s.log, rows, s.start, s.w.pos) && Covered(s.log, rows, s.start, s.w.local))
    && (s.w.Ending? ==> Covered(s.log, rows, s.start, s.w.head))
  }

  /** While nothing is queued: the live tail itself is covered, from the start or from the replay's mark. */
  ghost predicate TailCovered(s: System) {
    var rows, from := Rows(s.c.emitted), if s.c.replaying then s.mark else s.start;
    && (!LossPending(s.l) ==> Covered(s.log, rows, from, s.l.live))
    && (s.l.dispatching.Some? ==> Covered(s.log, rows, from, s.l.dispatching.value))
  }

  ghost predicate Inv(s: System) {
    && Bounded(s)
    && WorkerSound(s)
    && Resumable(s.log, s.start, s.c.emitted)
    && (!s.c.closed ==> OpenCovered(s))
    && (!s.c.closed && s.c.started && !s.c.queued ==> TailCovered(s))
  }

  // ------------------------------------------------- the critical sections keep coverage

  lemma CoveredGrows(log: seq<LogRow>, rows: set<nat>, log': seq<LogRow>, rows': set<nat>, a: nat, b: nat)
    requires log <= log' && rows <= rows' && b <= |log| && Covered(log, rows, a, b)
    ensures Covered(log', rows', a, b)
  {
  }

  lemma RowsAppend(emitted: seq<Emission>, e: Emission)
    ensures Rows(emitted + [e]) == Rows(emitted) + {e.row}
  {
    var all := emitted + [e];
    forall r
      ensures r in Rows(all) <==> r in Rows(emitted) || r == e.row
    {
      if r in Rows(emitted) {
        var k :| 0 <= k < |emitted| && emitted[k].row == r;
        assert all[k].row == r;
      }
      assert all[|emitted|] == e;
    }
  }

  /** deliver keeps an open stream's cursor covered, whatever row the cursor would move to. */
  lemma DeliverKeeps(log: seq<LogRow>, start: nat, c: Client, row: nat, cursor: nat, replayed: bool)
    requires !c.closed && IsFill(log, row) && c.seen <= Rows(c.emitted)
    requires Covered(log, Rows(c.emitted), start, c.cursor) && Resumable(log, start, c.emitted)
    requires cursor == 0 || cursor == row + 1
    requires cursor != 0 && (replayed || (!c.replaying && !c.queued)) ==> Covered(log, Rows(c.emitted), start, row)
    ensures var d := Deliver(c, row, cursor, replayed);
            && Rows(d.emitted) == Rows(c.emitted) + {row}
            && d.seen <= Rows(d.emitted)
            && Covered(log, Rows(d.emitted), start, d.cursor)
            && Resumable(log, start, d.emitted)
  {
    var d := Deliver(c, row, cursor, replayed);
    if row in c.seen {
      assert Rows(c.emitted) == Rows(c.emitted) + {row};
    } else {
      var e := Emission(row, d.cursor, replayed);
      RowsAppend(c.emitted, e);
      assert d.emitted[..|c.emitted| + 1] == d.emitted;
      forall k | 0 <= k < |d.emitted|
        ensures Covered(log, Rows(d.emitted[..k + 1]), start, d.emitted[k].cursor)
      {
        if k < |c.emitted| {
          assert d.emitted[..k + 1] == c.emitted[..k + 1];
        }
      }
    }
  }

  /** deliver touches the dedupe window, the cursor and the emissions, and nothing else. */
  lemma DeliverFrame(c: Client, row: nat, cursor: nat, replayed: bool, bound: nat)
    requires c.cursor <= bound && cursor <= bound
    requires forall k :: 0 <= k < |c.emitted| ==> c.emitted[k].cursor <= bound
    ensures var d := Deliver(c, row, cursor, replayed);
            && d == c.(cursor := d.cursor, seen := d.seen, seenOrder := d.seenOrder, emitted := d.emitted)
            && d.cursor <= bound
            && forall k :: 0 <= k < |d.emitted| ==> d.emitted[k].cursor <= bound
  {
  }

  /** A closed stream emits nothing. */
  lemma DeliverClosed(c: Client, row: nat, cursor: nat, replayed: bool)
    requires c.closed
    ensures Deliver(c, row, cursor, replayed).emitted == c.emitted
  {
  }

  // ------------------------------------------------- every step keeps the invariant

  lemma InitInv(s: System)
    requires Init(s)
    ensures Inv(s)
  {
  }

  lemma AppendKeeps(s: System, row: LogRow)
    requires Inv(s)
    ensures Inv(s.(log := s.log + [row]))
  {
    var t := s.(log := s.log + [row]);
    var rows := Rows(s.c.emitted);
    forall a: nat, b: nat | b <= |s.log| && Covered(s.log, rows, a, b)
      ensures Covered(t.log, rows, a, b)
    {
      CoveredGrows(s.log, rows, t.log, rows, a, b);
    }
    forall k | 0 <= k < |s.c.emitted|
      ensures Covered(t.log, Rows(s.c.emitted[..k + 1]), s.start, s.c.emitted[k].cursor)
    {
      CoveredGrows(s.log, Rows(s.c.emitted[..k + 1]), t.log, Rows(s.c.emitted[..k + 1]), s.start, s.c.emitted[k].cursor);
    }
    if s.l.dispatching.Some? {
      assert IsFill(t.log, s.l.dispatching.value);
      assert NoFills(t.log, s.l.live, s.l.dispatching.value) by {
        forall i | s.l.live <= i < s.l.dispatching.value
          ensures !IsFill(t.log, i)
        {
          assert !IsFill(s.log, i);
        }
      }
    }
  }

  lemma ArriveKeeps(s: System, t: System, a: Action)
    requires Inv(s) && a.Arrive? && LinkStep(s, t, a)
    ensures Inv(t)
  {
  }

  lemma DispatchKeeps(s: System, t: System, a: Action)
    requires Inv(s) && a.Dispatch? && LinkStep(s, t, a)
    ensures Inv(t)
  {
    var row := s.l.dispatching.value;
    var cursor := if a.stamped then row + 1 else 0;
    if s.c.started {
      DeliverFrame(s.c, row, cursor, false, |s.log|);
      if s.c.closed {
        DeliverClosed(s.c, row, cursor, false);
      } else {
        DeliverKeeps(s.log, s.start, s.c, row, cursor, false);
      }
      hide Deliver, Rows;
      if !s.c.closed {
        DispatchCovers(s, t, row);
      }
    }
  }

  lemma DispatchCovers(s: System, t: System, row: nat)
    requires Inv(s) && !s.c.closed && s.c.started && s.l.dispatching == Some(row)
    requires Rows(t.c.emitted) == Rows(s.c.emitted) + {row}
    requires t.log == s.log && t.start == s.start && t.mark == s.mark && t.w == s.w
    requires t.c.replaying == s.c.replaying && t.c.queued == s.c.queued
    requires t.l == s.l.(dispatching := None, live := if s.l.live <= row then row + 1 else s.l.live)
    ensures !t.c.queued ==> TailCovered(t)
    ensures s.w.Reading? || s.w.Ending? ==> Covered(t.log, Rows(t.c.emitted), t.start, t.w.local)
    ensures s.w.Delivering? ==> Covered(t.log, Rows(t.c.emitted), t.start, t.w.pos)
    ensures s.w.Delivering? ==> Covered(t.log, Rows(t.c.emitted), t.start, t.w.local)
    ensures s.w.Ending? ==> Covered(t.log, Rows(t.c.emitted), t.start, t.w.head)
  {
  }

  lemma LinkKeeps(s: System, t: System, a: Action)
    requires Inv(s) && LinkStep(s, t, a)
    ensures Inv(t)
  {
    hide Inv;
    match a
    case Append(row) => AppendKeeps(s, row);
    case Arrive(_) => ArriveKeeps(s, t, a);
    case Dispatch(_) => DispatchKeeps(s, t, a);
    case _ => SignalKeeps(s, t, a);
  }

  lemma SignalKeeps(s: System, t: System, a: Action)
    requires Inv(s) && LinkStep(s, t, a) && !a.Append? && !a.Arrive? && !a.Dispatch?
    ensures Inv(t)
  {
    hide Rows, Covered;
  }

  lemma DeliverRowKeeps(s: System, t: System, a: Action)
    requires Inv(s) && a.DeliverRow? && WorkerStep(s, t, a)
    ensures Inv(t)
  {
    var row := a.row;
    DeliverFrame(s.c, row, row + 1, true, |s.log|);
    if s.c.closed {
      DeliverClosed(s.c, row, row + 1, true);
    } else {
      var rows := Rows(s.c.emitted);
      assert Covered(s.log, rows, s.start, row) by {
        forall i | s.start <= i < row && IsFill(s.log, i)
          ensures i in rows
        {
          assert i < s.w.pos;
        }
      }
      DeliverKeeps(s.log, s.start, s.c, row, row + 1, true);
    }
    hide Deliver, Rows, CountFills;
    if !s.c.closed {
      DeliverRowCovers(s, t, row);
    }
  }

  lemma DeliverRowCovers(s: System, t: System, row: nat)
    requires Inv(s) && !s.c.closed && s.w.Delivering? && s.w.pos <= row < s.w.next
    requires IsFill(s.log, row) && NoFills(s.log, s.w.pos, row)
    requires Rows(t.c.emitted) == Rows(s.c.emitted) + {row}
    requires t.c == s.c.(cursor := t.c.cursor, seen := t.c.seen, seenOrder := t.c.seenOrder, emitted := t.c.emitted)
    requires t == s.(c := t.c, w := s.w.(pos := row + 1))
    ensures Covered(t.log, Rows(t.c.emitted), t.start, t.w.pos) && Covered(t.log, Rows(t.c.emitted), t.start, t.w.local)
    ensures s.c.started && !t.c.queued ==> TailCovered(t)
  {
    hide Rows;
  }

  lemma PageDoneKeeps(s: System, t: System, a: Action)
    requires Inv(s) && a.PageDone? && WorkerStep(s, t, a)
    ensures Inv(t)
  {
  }

  lemma FinishKeeps(s: System, t: System, a: Action)
    requires Inv(s) && a.Finish? && WorkerStep(s, t, a)
    ensures Inv(t)
  {
  }

  lemma WorkerKeeps(s: System, t: System, a: Action)
    requires Inv(s) && WorkerStep(s, t, a)
    ensures Inv(t)
  {
    match a
    case Wake =>
    case Begin =>
    case ReadFails =>
    case ReadPage(_, _, _) =>
    case DeliverRow(_) => DeliverRowKeeps(s, t, a);
    case PageDone => PageDoneKeeps(s, t, a);
    case SeeClosed =>
    case Finish => FinishKeeps(s, t, a);
    case _ =>
  }

  lemma ConsumerKeeps(s: System, t: System, a: Action)
    requires Inv(s) && ConsumerStep(s, t, a)
    ensures Inv(t)
  {
    hide Rows, Covered;
  }

  lemma StepKeeps(s: System, t: System, a: Action)
    requires Inv(s) && Step(s, t, a)
    ensures Inv(t)
  {
    hide Inv, LinkStep, WorkerStep, ConsumerStep;
    if LinkStep(s, t, a) {
      LinkKeeps(s, t, a);
    } else if WorkerStep(s, t, a) {
      WorkerKeeps(s, t, a);
    } else {
      ConsumerKeeps(s, t, a);
    }
  }

  lemma {:induction false} ReachableInv(states: seq<System>, actions: seq<Action>, k: nat)
    requires Run(states, actions) && k < |states|
    ensures Inv(states[k])
  {
    hide Inv, Step, Init;
    if k == 0 {
      InitInv(states[0]);
    } else {
      ReachableInv(states, actions, k - 1);
      StepKeeps(states[k - 1], states[k], actions[k - 1]);
    }
  }

  // ------------------------------------------------- the contract

  /**
   * At-least-once, over every interleaving of live events, losses, reconnects,
   * rotations and replay pages: whatever emission the consumer last processed,
   * every fill from the start up to that emission's cursor had already been
   * emitted; and the stored cursor of an open stream is covered likewise.
   */
  lemma AtLeastOnce(states: seq<System>, actions: seq<Action>, n: nat)
    requires Run(states, actions) && n < |states|
    ensures var s := states[n];
            && (forall k, i :: 0 <= k < |s.c.emitted| && s.start <= i < s.c.emitted[k].cursor && IsFill(s.log, i) ==>
                  i in Rows(s.c.emitted[..k + 1]))
            && (!s.c.closed ==> Covered(s.log, Rows(s.c.emitted), s.start, s.c.cursor))
  {
    ReachableInv(states, actions, n);
  }

  /**
   * Nothing is left behind: when the stream is open and at rest, every fill
   * from the start up to where the live tail has been is delivered, and no
   * replay request is outstanding.
   */
  lemma AtRestComplete(states: seq<System>, actions: seq<Action>, n: nat)
    requires Run(states, actions) && n < |states|
    requires var s := states[n];
             && s.c.started && !s.c.closed && s.w.Idle? && !s.c.token && s.c.senders == 0
             && !LossPending(s.l)
    ensures !states[n].c.queued
    ensures Covered(states[n].log, Rows(states[n].c.emitted), states[n].start, states[n].l.live)
  {
    ReachableInv(states, actions, n);
  }

  /** The actions that ask for a replay: the first attach, a hole, a resync marker and a re-authentication. */
  predicate Requests(s: System, a: Action) {
    || (a.AttachConsumer? && !s.c.started)
    || (a.Arrive? && RevealsHole(s.l.lastSeq, s.l.nextSeq))
    || a.Resync? || a.Reauthenticate?
  }

  /** A request stands until a replay begins. */
  lemma RequestStands(s: System, t: System, a: Action)
    requires Step(s, t, a) && (s.c.queued || Requests(s, a)) && !a.Begin?
    ensures t.c.queued
  {
    hide PageAnswer, NoFills, IsFill;
    if LinkStep(s, t, a) {
      LinkStands(s, t, a);
    } else {
      hide LinkStep;
    }
  }

  lemma LinkStands(s: System, t: System, a: Action)
    requires LinkStep(s, t, a) && (s.c.queued || Requests(s, a))
    ensures t.c.queued
  {
    hide PageAnswer, NoFills, IsFill;
  }

  lemma {:induction false} StandsUntilBegin(states: seq<System>, actions: seq<Action>, i: nat, n: nat)
    requires Run(states, actions) && i < n < |states| && Requests(states[i], actions[i])
    requires forall j :: i < j < n ==> !actions[j].Begin?
    ensures states[n].c.queued
  {
    hide Step, Init;
    if n > i + 1 {
      StandsUntilBegin(states, actions, i, n - 1);
    }
    RequestStands(states[n - 1], states[n], actions[n - 1]);
  }

  /**
   * No lost replay: after every request, a replay has begun since, or the
   * request still stands and a token, a sender or the worker is on its way to
   * serve it.
   */
  lemma NoLostReplay(states: seq<System>, actions: seq<Action>, i: nat, n: nat)
    requires Run(states, actions) && i < n < |states| && Requests(states[i], actions[i])
    ensures || (exists j :: i < j < n && actions[j].Begin?)
            || (states[n].c.queued && var s := states[n];
                (s.c.started && !s.c.closed ==> s.c.token || s.c.senders > 0 || !s.w.Idle?))
  {
    if forall j :: i < j < n ==> !actions[j].Begin? {
      hide Run, Requests;
      StandsUntilBegin(states, actions, i, n);
      ReachableInv(states, actions, n);
      hide Bounded, Resumable, OpenCovered, TailCovered;
    }
  }

  /** So an open stream at rest has answered every request with a replay begun after it. */
  lemma AtRestReplayed(states: seq<System>, actions: seq<Action>, i: nat, n: nat)
    requires Run(states, actions) && i < n < |states| && Requests(states[i], actions[i])
    requires var s := states[n]; s.c.started && !s.c.closed && s.w.Idle? && !s.c.token && s.c.senders == 0
    ensures exists j :: i < j < n && actions[j].Begin?
  {
    NoLostReplay(states, actions, i, n);
  }

  // ------------------------------------------------- crash and resume

  /**
   * A fill across a crash: the first life ends after emission k of `s`, the
   * second opens on the log `reopened` with that emission's cursor, and the
   * fill i precedes a cursor that the second life emits.
   */
  ghost predicate Spans(
    s: System, k: nat, reopened: seq<LogRow>, second: seq<System>, b: seq<Action>, m: nat, j: nat, i: nat) {
    && k < |s.c.emitted| && Run(second, b) && m < |second| && j < |second[m].c.emitted|
    && second[0].log == reopened && second[0].start == Opening(reopened, s.c.emitted[k].cursor)
    && s.start <= i < second[m].c.emitted[j].cursor && IsFill(second[m].log, i)
  }

  /** A fill that neither life has processed. */
  ghost predicate Skips(
    s: System, k: nat, reopened: seq<LogRow>, second: seq<System>, b: seq<Action>, m: nat, j: nat, i: nat) {
    Spans(s, k, reopened, second, b, m, j, i) && i !in Rows(s.c.emitted[..k + 1]) && i !in Rows(second[m].c.emitted[..j + 1])
  }

  /**
   * A consumer that crashes after any emission and resumes from that
   * emission's cursor misses nothing, exactly when the cursor is not empty or
   * it had processed every fill in the log by the time it reopened: an empty
   * cursor opens at the head.
   */
  lemma ResumeSkipsNothing(first: seq<System>, a: seq<Action>, n: nat, k: nat, reopened: seq<LogRow>)
    requires Run(first, a) && n < |first| && k < |first[n].c.emitted| && first[n].log <= reopened
    ensures var s := first[n];
            (forall second, b, m, j, i :: !Skips(s, k, reopened, second, b, m, j, i)) <==>
              s.c.emitted[k].cursor != 0 || Covered(reopened, Rows(s.c.emitted[..k + 1]), s.start, |reopened|)
  {
    var s := first[n];
    var cursor, rows := s.c.emitted[k].cursor, Rows(s.c.emitted[..k + 1]);
    ReachableInv(first, a, n);
    if cursor != 0 || Covered(reopened, rows, s.start, |reopened|) {
      forall second, b, m, j, i
        ensures !Skips(s, k, reopened, second, b, m, j, i)
      {
        if Spans(s, k, reopened, second, b, m, j, i) {
          ResumeCovers(s, k, reopened, second, b, m, j, i);
        }
      }
    } else {
      var i :| s.start <= i < |reopened| && IsFill(reopened, i) && i !in rows;
      EmptyCursorSkips(s, k, reopened, i);
    }
  }

  lemma ResumeCovers(
    s: System, k: nat, reopened: seq<LogRow>, second: seq<System>, b: seq<Action>, m: nat, j: nat, i: nat)
    requires Inv(s) && s.log <= reopened && Spans(s, k, reopened, second, b, m, j, i)
    requires s.c.emitted[k].cursor != 0 || Covered(reopened, Rows(s.c.emitted[..k + 1]), s.start, |reopened|)
    ensures i in Rows(s.c.emitted[..k + 1]) || i in Rows(second[m].c.emitted[..j + 1])
  {
    AtLeastOnce(second, b, m);
    StartFixed(second, b, m);
    LogGrows(second, b, m);
    if i < second[0].start {
      assert second[0].start <= |reopened|;
      assert IsFill(reopened, i);
      if s.c.emitted[k].cursor != 0 {
        assert i < s.c.emitted[k].cursor <= |s.log|;
        assert IsFill(s.log, i);
      }
    }
  }

  /** A second life that opens at the head, with a fill the first life never processed behind it. */
  lemma EmptyCursorSkips(s: System, k: nat, reopened: seq<LogRow>, i: nat)
    requires k < |s.c.emitted| && s.c.emitted[k].cursor == 0
    requires s.start <= i < |reopened| && IsFill(reopened, i) && i !in Rows(s.c.emitted[..k + 1])
    ensures exists second, b, m, j :: Skips(s, k, reopened, second, b, m, j, i)
  {
    var second, b := TailOnly(reopened);
    assert i < HeadOfFills(reopened);
    assert IsFill(second[4].log, i);
    var e := second[4].c.emitted;
    assert e[..1] == e && i !in Rows(e);
    hide Run, Rows;
    assert Skips(s, k, reopened, second, b, 4, 0, i);
  }

  /** A stream opened with no cursor that emits one live fill before its first replay. */
  lemma TailOnly(log: seq<LogRow>) returns (states: seq<System>, actions: seq<Action>)
    ensures Run(states, actions) && |actions| == 4 && states[0].log == log && states[0].start == HeadOfFills(log)
    ensures states[4].log == log + [FillRow] && states[4].c.emitted == [Emission(|log|, HeadOfFills(log), false)]
  {
    var h, n := HeadOfFills(log), |log|;
    var c := Client(false, h, false, false, false, 0, {}, [], false, []);
    var s0 := System(log, h, c, Idle, Link(0, 1, n, false, None), 0);
    var s1 := s0.(c := Start(c));
    var s2 := s1.(log := log + [FillRow]);
    var s3 := s2.(l := Link(1, 2, n, false, Some(n)));
    var s4 := s3.(c := OnLiveFill(s3.c, n, true), l := Link(1, 2, n + 1, false, None));
    assert Step(s0, s1, AttachConsumer);
    assert Step(s1, s2, Append(FillRow));
    assert Step(s2, s3, Arrive(Some(n)));
    assert Step(s3, s4, Dispatch(true));
    states, actions := [s0, s1, s2, s3, s4], [AttachConsumer, Append(FillRow), Arrive(Some(n)), Dispatch(true)];
    hide Step;
  }

  /**
   * Such an emission is reachable: a first live fill in an empty realm carries the
   * empty cursor, and the next fill is lost on resuming.
   */
  lemma EmptyCursorIsEmitted()
    ensures exists states: seq<System>, actions: seq<Action> ::
              Run(states, actions) && |actions| == 4 && states[4].c.emitted == [Emission(0, 0, false)]
    ensures forall s: System :: s.start == 0 && s.c.emitted == [Emission(0, 0, false)] ==>
              exists second, b, m, j :: Skips(s, 0, [FillRow, FillRow], second, b, m, j, 1)
  {
    var states, actions := TailOnly([]);
    forall s: System | s.start == 0 && s.c.emitted == [Emission(0, 0, false)]
      ensures exists second, b, m, j :: Skips(s, 0, [FillRow, FillRow], second, b, m, j, 1)
    {
      assert s.c.emitted[..1] == s.c.emitted;
      assert IsFill([FillRow, FillRow], 1);
      EmptyCursorSkips(s, 0, [FillRow, FillRow], 1);
    }
  }

  lemma {:induction false} LogGrows(states: seq<System>, actions: seq<Action>, k: nat)
    requires Run(states, actions) && k < |states|
    ensures states[0].log <= states[k].log
  {
    hide Init;
    if k > 0 {
      LogGrows(states, actions, k - 1);
      assert Step(states[k - 1], states[k], actions[k - 1]);
    }
  }

  lemma {:induction false} StartFixed(states: seq<System>, actions: seq<Action>, k: nat)
    requires Run(states, actions) && k < |states|
    ensures states[k].start == states[0].start
  {
    hide Init;
    if k > 0 {
      StartFixed(states, actions, k - 1);
      assert Step(states[k - 1], states[k], actions[k - 1]);
    }
  }

  // ------------------------------------------------- where the promise ends

  /**
   * Whether deliver moves the stored cursor: a replayed row always, a live one
   * only with no replay active or queued.
   */
  predicate Advances(
    c: Client, cursor: nat, replayed: bool) { cursor != 0 && (replayed || (!c.replaying && !c.queued)) }

  /**
   * Exactly when deliver keeps the stored cursor covered, replayed or live: it
   * does not move it, or everything before the row was delivered and the row
   * itself is, which on a closed stream means earlier, since a closed stream
   * advances its cursor and emits nothing.
   */
  lemma DeliverKeepsCursorIff(log: seq<LogRow>, start: nat, c: Client, row: nat, cursor: nat, replayed: bool)
    requires IsFill(log, row) && start <= row && (!c.closed ==> c.seen <= Rows(c.emitted))
    requires (cursor == 0 || cursor == row + 1) && Covered(log, Rows(c.emitted), start, c.cursor)
    ensures var d := Deliver(c, row, cursor, replayed);
            Covered(log, Rows(d.emitted), start, d.cursor) <==>
              || !Advances(c, cursor, replayed)
              || (Covered(log, Rows(c.emitted), start, row) && (!c.closed || row in Rows(c.emitted)))
  {
    var d := Deliver(c, row, cursor, replayed);
    if !c.closed && row !in c.seen {
      RowsAppend(c.emitted, Emission(row, d.cursor, replayed));
    } else {
      assert d.emitted == c.emitted;
    }
    assert !c.closed && row in c.seen ==> row in Rows(c.emitted);
    var rows := Rows(d.emitted);
    hide Rows, Deliver;
    if Advances(c, cursor, replayed) && Covered(log, rows, start, row + 1) {
      assert row in rows;
    }
  }

  /** A closed stream's stored cursor can run ahead of what it delivered. */
  lemma ClosedCursorRunsAhead()
    ensures var c := Client(true, 0, true, false, false, 0, {}, [], true, []);
            var d := Deliver(c, 0, 1, true);
            d.cursor == 1 && d.emitted == [] && !Covered([FillRow], Rows(d.emitted), 0, d.cursor)
  {
    assert IsFill([FillRow], 0);
  }

  // ------------------------------------------------- gap counting

  /** What checkGap reports for the message numbered seqNo after `last`. */
  function Missed(last: nat, seqNo: nat): nat {
    if RevealsHole(last, seqNo) then seqNo - last - 1 else 0
  }

  function TotalMissed(last: nat, numbers: seq<nat>): nat
    decreases |numbers|
  {
    if numbers == [] then 0 else Missed(last, numbers[0]) + TotalMissed(numbers[0], numbers[1..])
  }

  ghost predicate Increasing(last: nat, numbers: seq<nat>) {
    && (numbers != [] ==> last < numbers[0])
    && forall i, j :: 0 <= i < j < |numbers| ==> numbers[i] < numbers[j]
  }

  /** After a first message, the gaps reported add up to exactly the numbers that never arrived. */
  lemma {:induction false} GapsCountLosses(last: nat, numbers: seq<nat>)
    requires last > 0 && Increasing(last, numbers)
    ensures numbers != [] ==> TotalMissed(last, numbers) + |numbers| == numbers[|numbers| - 1] - last
    ensures TotalMissed(last, numbers) == 0 <==> forall i :: 0 <= i < |numbers| ==> numbers[i] == last + 1 + i
    decreases |numbers|
  {
    if numbers != [] {
      GapsCountLosses(numbers[0], numbers[1..]);
      assert forall i :: 0 < i < |numbers| ==> numbers[i] == numbers[1..][i - 1];
      assert forall i :: 0 <= i < |numbers[1..]| ==> numbers[1..][i] == numbers[i + 1];
      assert numbers[|numbers| - 1] >= numbers[0];
    }
  }

  /**
   * Exactly when every loss is counted: after an earlier message, or when the
   * first message of the connection carries the first number. Otherwise the
   * numbers before it go unreported.
   */
  lemma AllLossesCountedIff(last: nat, numbers: seq<nat>)
    requires numbers != [] && Increasing(last, numbers)
    ensures TotalMissed(last, numbers) + |numbers| == numbers[|numbers| - 1] - last <==> last > 0 || numbers[0] == 1
    ensures last == 0 ==> TotalMissed(last, numbers) + |numbers| == numbers[|numbers| - 1] - (numbers[0] - 1)
  {
    if last > 0 {
      GapsCountLosses(last, numbers);
    } else {
      var rest := numbers[1..];
      assert forall i :: 0 <= i < |rest| ==> rest[i] == numbers[i + 1];
      GapsCountLosses(numbers[0], rest);
    }
  }
}
