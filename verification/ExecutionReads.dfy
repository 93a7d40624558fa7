/**
 * What receipts and evidence say, both ways: which quantities and statuses
 * give which verdict, and which observations settle a wait.
 */
module ExecutionReads {
  import opened Text
  import opened Decimals
  import opened Operations
  import opened Execution
  import opened EvidenceWait

  // ------------------------------------------------- amounts

  /** A decimal text: digits, or digits, a point and more digits. */
  ghost predicate Spelled(s: string, whole: string, frac: string) {
    && whole != "" && AllDigits(whole) && AllDigits(frac)
    && (if frac == "" then s == whole else s == whole + "." + frac)
  }

  lemma {:induction false} CutJoins(t: string)
    ensures var (a, b) := CutPoint(t); t == a + "." + b || (b == "" && t == a)
  {
    if t != "" && t[0] != '.' {
      CutJoins(t[1..]);
      var (a, b) := CutPoint(t[1..]);
      assert t == [t[0]] + t[1..];
      assert [t[0]] + (a + "." + b) == ([t[0]] + a) + "." + b;
    } else if t != "" {
      assert t == "" + "." + t[1..];
    }
  }

  /** Which texts are amounts, and what they read as: the same decimal the exact parser reads. */
  lemma AmountReads(s: string)
    ensures ExecutionDecimal(s) <==> exists whole, frac :: Spelled(s, whole, frac)
    ensures ExecutionDecimal(s) ==> ParseDec(s) == Some(Amount(s))
  {
    var (a, b) := CutPoint(s);
    CutJoins(s);
    if ExecutionDecimal(s) {
      assert Spelled(s, a, b);
      SpelledParses(s, a, b);
    }
    forall whole, frac | Spelled(s, whole, frac)
      ensures ExecutionDecimal(s)
    {
      SpelledCuts(s, whole, frac);
    }
  }

  lemma SpelledCuts(s: string, whole: string, frac: string)
    requires Spelled(s, whole, frac)
    ensures CutPoint(s) == (whole, frac) && ExecutionDecimal(s)
  {
    if frac == "" {
      CutNoPoint(whole);
    } else {
      CutAtPoint(whole, frac);
    }
  }

  lemma SpelledParses(s: string, whole: string, frac: string)
    requires Spelled(s, whole, frac)
    ensures ExecutionDecimal(s) && ParseDec(s) == Some(Amount(s))
  {
    SpelledCuts(s, whole, frac);
    assert IsDigit(s[0]) && IsDigit(s[|s| - 1]);
    TrimmedNumeral(s);
    hide CutPoint, ToNat, TrimSpace;
  }

  // ------------------------------------------------- verdicts

  /** Upper case and the venues' synonyms, spelled out. */
  lemma StatusReads(s: string)
    ensures var u, n := ToUpper(s), NormalizeExecutionStatus(s);
            && (n == "FILLED" <==> u == "FILLED")
            && (n == "CANCELLED" <==> u == "CANCELLED" || u == "CANCELED" || u == "EXPIRED")
            && (n == "FAILED" <==> u == "FAILED" || u == "REJECTED")
            && (IsTerminalOrderStatus(s) <==> n == "FILLED" || n == "CANCELLED" || n == "FAILED")
  {
    hide ToUpper;
    var u := ToUpper(s);
    assert |"CANCELED"| == 8 && |"EXPIRED"| == 7 && |"REJECTED"| == 8 && |"FILLED"| == 6 && |"FAILED"| == 6 && |"CANCELLED"| == 9;
    assert "CANCELED"[0] != "REJECTED"[0] && "FILLED"[1] != "FAILED"[1];
  }

  /** The order asked for something and got less of it. */
  ghost predicate FellShort(o: SimOrder)
    requires ExecutionDecimal(o.filledSize)
  {
    ExecutionDecimal(o.size) && ValueOf(o.size) > 0.0 && ValueOf(o.filledSize) < ValueOf(o.size)
  }

  /** The verdict of an order whose filled quantity reads, by status and quantities. */
  ghost function Verdict(status: string, filled: real, short: bool, ioc: bool): ExecutionState {
    if status == "FILLED" then
      if filled > 0.0 then (if short then PartialFill else Filled) else if short && ioc then NoFill else Unknown
    else if status == "CANCELLED" then (if filled > 0.0 then PartialFill else NoFill)
    else if status == "FAILED" then (if filled > 0.0 then PartialFill else Rejected)
    else Pending
  }

  /** What becomes of the rest of an order, by its verdict. */
  ghost predicate RestFollows(state: ExecutionState, rest: Remainder, status: string, ioc: bool) {
    match state
    case Unknown => rest == RemainderUnknown
    case Pending => rest == Working
    case Filled => rest == RemainderFilled
    case NoFill => rest == RemainderCancelled
    case Rejected => rest == RemainderCancelled
    case PartialFill => rest == (if status == "FILLED" && !ioc then RemainderUnknown else RemainderCancelled)
  }

  /** Every order's verdict, from its status and its quantities, and what follows for the rest of it. */
  lemma VerdictReads(o: SimOrder)
    ensures var (state, rest) := ExecutionDisposition(o);
            var status, ioc := NormalizeExecutionStatus(o.status), o.timeInForce == "IOC";
            && state == (if !ExecutionDecimal(o.filledSize) then Unknown
                         else Verdict(status, ValueOf(o.filledSize), FellShort(o), ioc))
            && RestFollows(state, rest, status, ioc)
  {
    if ExecutionDecimal(o.filledSize) {
      AmountSign(o.filledSize);
      if ExecutionDecimal(o.size) {
        AmountSign(o.size);
        CmpValue(Amount(o.filledSize), Amount(o.size));
      }
      hide ExecutionDecimal, Amount, Cmp, NormalizeExecutionStatus, Dec.Value;
    }
  }

  /**
   * The rest of a receipt: the order's own identity, quantity and price, and a
   * remainder printed to the longer of the two scales.
   */
  lemma ReceiptCarries(o: SimOrder)
    ensures var r := ExecutionOutcome(o);
            && r.orderId == o.id && r.filledSize == o.filledSize && r.avgFillPrice == o.avgFillPrice
            && (r.executionState, r.remainder) == ExecutionDisposition(o)
            && r.status == (if r.executionState.Unknown? then "UNKNOWN" else o.status)
            && (r.remainingSize.Some? ==>
                  && ExecutionDecimal(o.size) && ExecutionDecimal(o.filledSize) && ExecutionDecimal(r.remainingSize.value)
                  && var a, b := Amount(o.size).s, Amount(o.filledSize).s;
                     Amount(r.remainingSize.value).s == if a < b then b else a)
  {
    ReceiptBalances(o);
    if ExecutionOutcome(o).remainingSize.Some? {
      FloatStringValue(Amount(o.size).Sub(Amount(o.filledSize)));
    }
    hide ExecutionDisposition, Cmp, FloatString, ExecutionDecimal, Amount;
  }

  // ------------------------------------------------- evidence

  /** The outcome an operation is read by: its text when there is one, and only without it the decoded form. */
  ghost predicate ReadsAs(op: Operation, v: Outcomes) {
    op.outcome == Read(v) || (op.outcome == Missing && op.parsedOutcome == Read(v))
  }

  /**
   * Evidence, field by field: nothing in it but the outcome's own figures and the
   * original intent's size and time in force.
   */
  lemma EvidenceCarries(op: Operation, objectId: string, v: Outcomes)
    requires ReadsAs(op, v)
    ensures match OperationExecution(op, objectId)
            case None => true
            case Some(e) =>
              && e.order.id == v.orderId && e.order.filledSize == v.filledSize && e.order.avgFillPrice == v.avgFillPrice
              && e.order.status == NormalizeExecutionStatus(v.status)
              && e.fillsComplete == (v.fillsComplete == Some(true))
              && match op.input
                 case Read(i) =>
                   && e.order.size == i.size
                   && e.order.timeInForce == (if i.marketableIOC then "IOC" else i.timeInForce)
                 case _ => e.order.size == "" && e.order.timeInForce == ""
  {
    hide ExecutionDisposition, NormalizeExecutionStatus;
  }

  lemma UnreadIsNoEvidence(op: Operation, objectId: string)
    requires forall v :: !ReadsAs(op, v)
    ensures OperationExecution(op, objectId) == None
  {
    if OutcomeOf(op).Read? {
      assert ReadsAs(op, OutcomeOf(op).value);
    }
  }

  /** The identity known at submission, and the one resolved later; the two prefer different readings of the outcome. */
  lemma IdentityReads(op: Operation)
    ensures var text, decoded := OrderIdIn(op.outcome), OrderIdIn(op.parsedOutcome);
            && (text != "" ==> IdentityOf(op) == text) && (decoded != "" ==> ResolveOrderId(op) == decoded)
            && (text == "" ==> IdentityOf(op) == decoded)
            && (decoded == "" ==> ResolveOrderId(op) == if text != "" then text else op.id)
  {
  }

  /** The submitted operation's own terminal execution, for the identity known so far. */
  ghost predicate OperationSettles(h: Handle, resolved: string, ev: Event) {
    && ev.operation.Some? && ev.operation.value.id == h.settled.id && !FailedOp(ev.operation.value)
    && Admissible(ev.operation.value, h.objectId)
    && (resolved == "" || OutcomeOf(ev.operation.value).value.orderId == resolved)
  }

  ghost predicate OperationFails(h: Handle, ev: Event) {
    && ev.operation.Some? && ev.operation.value.id == h.settled.id
    && (ev.operation.value.state == OpFailed || ev.operation.value.state == OpExpired)
  }

  /** The submitted operation as it would read with this order's figures as its outcome. */
  function Joined(op: Operation, o: SimOrder): Operation {
    op.(state := OpCompleted, outcome := Read(Outcomes(o.id, o.status, o.filledSize, o.avgFillPrice, None)))
  }

  /** A terminal order of this account with the resolved id, admissible with the original intent. */
  ghost predicate OrderSettles(h: Handle, resolved: string, ev: Event) {
    && ev.order.Some? && ev.entity == h.objectId && resolved != "" && ev.order.value.id == resolved
    && Admissible(Joined(h.settled, ev.order.value), h.objectId)
  }

  /** An event ends the wait exactly when it fails the submitted operation, settles it, or settles its order. */
  lemma EventSettlesIff(h: Handle, resolved: string, ev: Event)
    ensures Weigh(h, resolved, ev).Some? <==>
              OperationFails(h, ev) || OperationSettles(h, resolved, ev) || OrderSettles(h, resolved, ev)
    ensures OperationFails(h, ev) ==> Weigh(h, resolved, ev) == Some(Failure(ev.operation.value))
    ensures match Weigh(h, resolved, ev)
            case Some(Proof(e)) =>
              if OperationSettles(h, resolved, ev) then OperationExecution(ev.operation.value, h.objectId) == Some(e)
              else ev.order.Some? && ExecutionUpdate(h.settled, h.objectId, ev.order.value) == Some(e)
            case _ => true
  {
    hide OperationExecution, ExecutionUpdate, Admissible, IsTerminalOrderStatus, Joined;
    if ev.operation.Some? { EvidenceIffAdmissible(ev.operation.value, h.objectId); }
    if ev.order.Some? { JoinedSettles(h, ev.order.value); }
  }

  lemma JoinedSettles(h: Handle, o: SimOrder)
    ensures ExecutionUpdate(h.settled, h.objectId, o).Some? <==> Admissible(Joined(h.settled, o), h.objectId)
    ensures Admissible(Joined(h.settled, o), h.objectId) ==> IsTerminalOrderStatus(o.status)
  {
    hide OperationExecution, IsTerminalOrderStatus;
    EvidenceIffAdmissible(Joined(h.settled, o), h.objectId);
  }

  /** So the main loop returns on the first such event it takes up, and goes on past any other. */
  lemma ProcessSettlesIff(h: Handle, w: Wait, v: Wait)
    requires MainStep(h, w, v, Process) && w.main.batch != []
    ensures var ev := w.main.batch[0];
            v.main.Returned? <==>
              OperationFails(h, ev) || OperationSettles(h, w.resolved, ev) || OrderSettles(h, w.resolved, ev)
  {
    EventSettlesIff(h, w.resolved, w.main.batch[0]);
    hide Weigh, OperationSettles, OrderSettles;
  }

  /**
   * A snapshot ends the wait exactly when it is an order admissible with the
   * intent and not of another identity, or a failure of the operation.
   */
  lemma SnapshotSettlesIff(h: Handle, w: Wait, v: Wait)
    requires MainStep(h, w, v, TakeSnapshot)
    ensures v.main.Returned? <==>
              match w.snapshot.value
              case Order(o) => (w.resolved == "" || o.id == w.resolved) && Admissible(Joined(h.settled, o), h.objectId)
              case ReadError(f) =>
                f.Some? && f.value.id == h.settled.id && (f.value.state == OpFailed || f.value.state == OpExpired)
  {
    hide OperationExecution, ExecutionUpdate, Admissible, IsTerminalOrderStatus, Joined;
    if w.snapshot.value.Order? { JoinedSettles(h, w.snapshot.value.value); }
  }

  /** A wait that need not begin: a failed submission fails it, and an admissible one settles it at once. */
  lemma SubmissionSettlesIff(h: Handle, events: seq<Event>)
    ensures var w := Begin(h, events);
            && (FailedOp(h.settled) ==> w.main == Returned(Failure(h.settled)))
            && (!FailedOp(h.settled) ==> (w.main.Returned? <==> Admissible(h.settled, h.objectId)))
            && w.events == events && w.resolved == IdentityOf(h.settled)
  {
    EvidenceIffAdmissible(h.settled, h.objectId);
    hide OperationExecution, Admissible;
  }

  /** The reader stores the identity it finds, exactly where none is known, and wakes the main loop for it. */
  lemma IdentityTakesEffect(h: Handle, w: Wait, v: Wait, a: Action)
    requires Step(h, w, v, a) && ReadsBounded(h, w)
    ensures a.GetReturns? ==>
              if a.order.id != "" && w.resolved == "" then v.resolved == a.order.id && v.wakers == w.wakers + 1
              else v.resolved == w.resolved
    ensures a.Resolve? ==>
              if ResolveOrderId(a.op) != h.settled.id then v.resolved == ResolveOrderId(a.op) && v.wakers == w.wakers + 1
              else v.resolved == w.resolved
    ensures a.Resolve? ==> v.reader == Ready(0, ResolveOrderId(a.op))
  {
    if a.GetReturns? || a.Resolve? { MainIsNotReader(h, w, v, a); }
    hide MainStep, OperationExecution, ResolveOrderId;
  }

  lemma MainIsNotReader(h: Handle, w: Wait, v: Wait, a: Action)
    requires a.GetReturns? || a.Resolve?
    ensures !MainStep(h, w, v, a)
  {
  }

  /** Each read's result goes to the main loop, and another read follows only a gap or a failed one, three at most. */
  lemma ReaderTakesEffect(h: Handle, w: Wait, v: Wait)
    requires ReaderStep(h, w, v, SendSnapshot) && ReadsBounded(h, w)
    ensures v.snapshot == Some(w.reader.snap)
    ensures var r := w.reader;
            v.reader == if r.attempt < 2 then Pausing(r.attempt + 1, r.lookup, r.snap.ReadError?) else Stopped
  {
  }

  /**
   * An order of the account seen before any identity is known is put back in the
   * queue, unless 256 events wait there already.
   */
  lemma HoldTakesEffect(h: Handle, w: Wait, v: Wait)
    requires MainStep(h, w, v, Hold)
    ensures v.main == Processing(w.main.rest)
    ensures v.events == if |w.events| < 256 then w.events + [w.main.ev] else w.events
  {
  }
}
