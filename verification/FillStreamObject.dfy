/** RealmFillWatchStream as an object: each critical section in place, tied to its step. */
module FillStreamObject {
  import opened FillStream

  class RealmFillWatchStream {
    var started: bool
    var cursor: nat
    var replaying: bool
    var replayQueued: bool
    var token: bool
    var senders: nat
    var seen: set<nat>
    var seenOrder: seq<nat>
    var closed: bool
    var emitted: seq<Emission>

    ghost function View(): Client
      reads this
    {
      Client(started, cursor, replaying, replayQueued, token, senders, seen, seenOrder, closed, emitted)
    }

    /** WatchRealmFills: without a cursor, the position of the newest fill in the log. */
    constructor (log: seq<LogRow>, fromCursor: nat)
      ensures View() == Client(false, Opening(log, fromCursor), false, false, false, 0, {}, [], false, [])
    {
      started, replaying, replayQueued := false, false, false;
      cursor := if fromCursor == 0 then HeadOfFills(log) else fromCursor;
      token, senders, seen, seenOrder, closed, emitted := false, 0, {}, [], false, [];
    }

    method Deliver(row: nat, position: nat, replayed: bool)
      modifies this
      ensures View() == FillStream.Deliver(old(View()), row, position, replayed)
    {
      var dup := row in seen;
      if !dup {
        seen := seen + {row};
        seenOrder := seenOrder + [row];
        if |seenOrder| > DEDUPE_WINDOW {
          seen := seen - {seenOrder[0]};
          seenOrder := seenOrder[1..];
        }
      }
      if position != 0 && (replayed || (!replaying && !replayQueued)) {
        cursor := position;
      }
      if dup {
        return;
      }
      if !closed {
        emitted := emitted + [Emission(row, cursor, replayed)];
      }
    }

    method ScheduleReplay()
      modifies this
      ensures View() == SendToken(RequestReplay(old(View())))
    {
      replayQueued, senders := true, senders + 1;
      senders, token := senders - 1, true;
    }

    method Start()
      modifies this
      ensures View() == if old(started) then old(View()) else SendToken(FillStream.Start(old(View())))
    {
      if started {
        return;
      }
      started := true;
      ScheduleReplay();
    }

    method OnLiveFill(row: nat, stamped: bool)
      modifies this
      ensures View() == FillStream.OnLiveFill(old(View()), row, stamped)
    {
      if !started {
        return;
      }
      Deliver(row, if stamped then row + 1 else 0, false);
    }

    /**
     * runReplay without interference: page after page from the cursor to the
     * head of the log. Every fill from the cursor on ends up delivered, now or
     * earlier inside the dedupe window, and the cursor ends at the head.
     */
    method RunReplay(log: seq<LogRow>)
      requires !closed && cursor <= |log|
      modifies this
      ensures !replaying && !replayQueued && !closed
      ensures cursor == if |log| > 0 then |log| else old(cursor)
      ensures Covered(log, Rows(emitted) + old(seen), old(cursor), |log|)
      ensures old(emitted) <= emitted
    {
      replayQueued, replaying := false, true;
      var local := cursor;
      var more := true;
      while more
        invariant local <= |log| && !closed && replaying && !replayQueued
        invariant Covered(log, Rows(emitted) + old(seen), old(cursor), local)
        invariant seen <= Rows(emitted) + old(seen) && old(emitted) <= emitted
        invariant !more ==> local == |log|
        invariant |log| == 0 ==> cursor == old(cursor)
        decreases |log| - local, more
      {
        var rows, next := ListRealmFills(log, local);
        DeliverPage(log, rows, local, next, old(seen), old(cursor));
        local := next;
        more := |rows| >= PAGE_LIMIT;
      }
      if local != 0 {
        cursor := local;
      }
      replaying := false;
    }

    /** The inner loop: one page of fills, in log order. */
    method DeliverPage(
      ghost log: seq<LogRow>, rows: seq<nat>, ghost from: nat, ghost next: nat, ghost before: set<nat>,
          ghost start: nat)
      requires !closed && replaying && !replayQueued && IsPage(log, rows, from, next)
      requires Covered(log, Rows(emitted) + before, start, from) && seen <= Rows(emitted) + before
      modifies this
      ensures !closed && replaying && !replayQueued && old(emitted) <= emitted
      ensures Covered(log, Rows(emitted) + before, start, next) && seen <= Rows(emitted) + before
      ensures rows == [] ==> cursor == old(cursor)
    {
      for i := 0 to |rows|
        invariant !closed && replaying && !replayQueued && old(emitted) <= emitted
        invariant Covered(log, Rows(emitted) + before, start, from) && seen <= Rows(emitted) + before
        invariant forall j :: 0 <= j < i ==> rows[j] in Rows(emitted) + before
        invariant i == 0 ==> cursor == old(cursor)
      {
        ghost var was := emitted;
        Deliver(rows[i], rows[i] + 1, true);
        if emitted != was {
          RowsAppend(was, emitted[|was|]);
        }
      }
    }
  }

  /** `rows` are exactly the fills of the log in [from, next). */
  ghost predicate IsPage(log: seq<LogRow>, rows: seq<nat>, from: nat, next: nat) {
    && from <= next <= |log|
    && (forall j :: 0 <= j < |rows| ==> from <= rows[j] < next && IsFill(log, rows[j]))
    && (forall i :: from <= i < next && IsFill(log, i) ==> i in rows)
  }

  /** The realm-wide listing: at most a page of fills after the cursor, fewer only at the head of the log. */
  method ListRealmFills(log: seq<LogRow>, local: nat) returns (rows: seq<nat>, next: nat)
    requires local <= |log|
    ensures IsPage(log, rows, local, next)
    ensures |rows| <= PAGE_LIMIT && (|rows| < PAGE_LIMIT ==> next == |log|)
    ensures |rows| <= next - local
  {
    rows, next := [], local;
    while next < |log| && |rows| < PAGE_LIMIT
      invariant IsPage(log, rows, local, next) && |rows| <= PAGE_LIMIT
      invariant |rows| <= next - local
    {
      if log[next].FillRow? {
        rows := rows + [next];
      }
      next := next + 1;
    }
  }
}
