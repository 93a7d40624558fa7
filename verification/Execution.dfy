/**
 * Execution evidence and receipts in operation.go and order_execution.go: what
 * an observation proves about an order, and what a receipt may then claim.
 */
module Execution {
  import opened Text
  import opened Decimals
  import opened Operations

  // ------------------------------------------------- exact amounts

  /** Digits, optionally a point and more digits; nothing else. */
  predicate ExecutionDecimal(s: string) {
    var (whole, frac) := CutPoint(s);
    whole != "" && AllDigits(whole) && AllDigits(frac) && (frac != "" || s == whole)
  }

  function Amount(s: string): Dec
    requires ExecutionDecimal(s)
  {
    var (whole, frac) := CutPoint(s);
    Dec(ToNat(whole + frac), |frac|)
  }

  function Cmp(a: Dec, b: Dec): int {
    var d := a.Sub(b).m;
    if d < 0 then -1 else if d > 0 then 1 else 0
  }

  lemma CmpValue(a: Dec, b: Dec)
    ensures Cmp(a, b) < 0 <==> a.Value() < b.Value()
    ensures Cmp(a, b) == 0 <==> a.Value() == b.Value()
  {
    var d := a.Sub(b);
    SubValue(a, b);
    FractionSign(d.m, d.s);
  }

  // ------------------------------------------------- orders and their disposition

  datatype SimOrder = SimOrder(
    id: string,
    status: string,
    size: string,
    filledSize: string,
    timeInForce: string,
    avgFillPrice: Option<string>)

  datatype ExecutionState = Unknown | Pending | Filled | PartialFill | NoFill | Rejected

  datatype Remainder = RemainderUnknown | Working | RemainderFilled | RemainderCancelled

  /** The two spellings and the two synonyms the venues use. */
  function Canonical(u: string): string {
    if u == "CANCELED" || u == "EXPIRED" then "CANCELLED"
    else if u == "REJECTED" then "FAILED"
    else u
  }

  function NormalizeExecutionStatus(s: string): string { Canonical(ToUpper(s)) }

  predicate Terminal(status: string) { status == "FILLED" || status == "CANCELLED" || status == "FAILED" }

  predicate IsTerminalOrderStatus(s: string) { Terminal(NormalizeExecutionStatus(s)) }

  /** Normalizing twice is normalizing once. */
  lemma NormalizeIdempotent(s: string)
    ensures NormalizeExecutionStatus(NormalizeExecutionStatus(s)) == NormalizeExecutionStatus(s)
  {
    var u := ToUpper(s);
    CanonicalIdempotent(u);
    hide Canonical, ToUpper;
    UpperKeepsUpper(Canonical(u));
  }

  lemma CanonicalIdempotent(u: string)
    requires NoLower(u)
    ensures Canonical(Canonical(u)) == Canonical(u) && NoLower(Canonical(u))
  {
    assert |"CANCELLED"| == 9 && |"CANCELED"| == 8;
  }

  /** A FILLED order: the size asked for, when it is known, decides whether that claim holds. */
  function FilledDisposition(o: SimOrder, filled: Dec): (ExecutionState, Remainder) {
    if ExecutionDecimal(o.size) && Amount(o.size).m > 0 && Cmp(filled, Amount(o.size)) < 0 then
      var ioc := o.timeInForce == "IOC";
      if filled.m > 0 then (PartialFill, if ioc then RemainderCancelled else RemainderUnknown)
      else if ioc then (NoFill, RemainderCancelled)
      else (Unknown, RemainderUnknown)
    else if filled.m > 0 then (Filled, RemainderFilled)
    else (Unknown, RemainderUnknown)
  }

  function ExecutionDisposition(o: SimOrder): (ExecutionState, Remainder) {
    if !ExecutionDecimal(o.filledSize) then (Unknown, RemainderUnknown)
    else
      var filled := Amount(o.filledSize);
      var status := NormalizeExecutionStatus(o.status);
      if status == "FILLED" then FilledDisposition(o, filled)
      else if status == "CANCELLED" then (if filled.m > 0 then PartialFill else NoFill, RemainderCancelled)
      else if status == "FAILED" then (if filled.m > 0 then PartialFill else Rejected, RemainderCancelled)
      else (Pending, Working)
  }

  // ------------------------------------------------- receipts

  datatype Fulfillment = FulfillmentUnknown | Nothing | Part | Full

  datatype Outcome = Outcome(
    orderId: string,
    status: string,
    filledSize: string,
    fulfillment: Fulfillment,
    requestedSize: Option<string>,
    remainingSize: Option<string>,
    executionState: ExecutionState,
    remainder: Remainder,
    avgFillPrice: Option<string>)

  /** big.Rat.FloatString at a scale the value already has. */
  function FloatString(d: Dec): string
    requires d.m >= 0
  {
    Fixed(Padded(Numeral(d.m), d.s), d.s)
  }

  function ExecutionOutcome(o: SimOrder): Outcome {
    var (state, rest) := ExecutionDisposition(o);
    var status := if state.Unknown? then "UNKNOWN" else o.status;
    var plain := Outcome(o.id, status, o.filledSize, FulfillmentUnknown, None, None, state, rest, o.avgFillPrice);
    if ExecutionDecimal(o.size) && ExecutionDecimal(o.filledSize) then
      var requested, executed := Amount(o.size), Amount(o.filledSize);
      if Cmp(requested, executed) >= 0 then
        plain.(requestedSize := Some(o.size),
               fulfillment := if executed.m == 0 then Nothing else if Cmp(requested, executed) > 0 then Part else Full,
               remainingSize := Some(FloatString(requested.Sub(executed))))
      else plain
    else plain
  }

  /** The number a decimal text stands for. */
  ghost function ValueOf(s: string): real
    requires ExecutionDecimal(s)
  {
    Amount(s).Value()
  }

  lemma FloatStringValue(d: Dec)
    requires d.m >= 0
    ensures ExecutionDecimal(FloatString(d)) && Amount(FloatString(d)) == d
  {
    var p := Padded(Numeral(d.m), d.s);
    PaddedNumeral(d.m, d.s);
    FixedCuts(p, d.s);
    if d.s == 0 {
      CutNoPoint(p);
    } else {
      CutAtPoint(p[..|p| - d.s], p[|p| - d.s..]);
    }
  }

  lemma AmountSign(s: string)
    requires ExecutionDecimal(s)
    ensures ValueOf(s) >= 0.0 && (ValueOf(s) > 0.0 <==> Amount(s).m > 0)
  {
    FractionSign(Amount(s).m, Amount(s).s);
  }

  /**
   * A receipt's sizes: a requested size is reported exactly when both sizes are
   * decimals and no more was executed than requested. It is then the size of
   * the order, remaining plus filled is that size exactly, as numbers and as
   * printed text, and the fulfillment is what these numbers say.
   */
  lemma ReceiptBalances(o: SimOrder)
    ensures var r := ExecutionOutcome(o);
            && (r.requestedSize.Some? <==>
                  ExecutionDecimal(o.size) && ExecutionDecimal(o.filledSize) && ValueOf(o.filledSize) <= ValueOf(o.size))
            && (r.remainingSize.Some? <==> r.requestedSize.Some?)
            && (r.fulfillment.FulfillmentUnknown? <==> r.requestedSize.None?)
            && (r.requestedSize.Some? ==>
                  && r.requestedSize.value == o.size && ExecutionDecimal(r.remainingSize.value)
                  && ValueOf(r.remainingSize.value) + ValueOf(o.filledSize) == ValueOf(o.size)
                  && Amount(r.remainingSize.value).Add(Amount(o.filledSize)).String() == Amount(o.size).String()
                  && (r.fulfillment.Nothing? <==> ValueOf(o.filledSize) == 0.0)
                  && (r.fulfillment.Part? <==> 0.0 < ValueOf(o.filledSize) < ValueOf(o.size))
                  && (r.fulfillment.Full? <==> 0.0 < ValueOf(o.filledSize) == ValueOf(o.size)))
  {
    if ExecutionDecimal(o.size) && ExecutionDecimal(o.filledSize) {
      var requested, executed := Amount(o.size), Amount(o.filledSize);
      CmpValue(requested, executed);
      AmountSign(o.filledSize);
      if Cmp(requested, executed) >= 0 {
        var d := requested.Sub(executed);
        SubValue(requested, executed);
        FloatStringValue(d);
        AddValue(d, executed);
        PrintDecidesValue(d.Add(executed), requested);
      }
    }
  }

  /**
   * What a verdict implies about the quantities: "filled" with a requested size
   * means full and nothing remaining, "no fill" and "rejected" mean none, a
   * partial fill is a positive one, and a malformed filled quantity never
   * becomes a verdict.
   */
  lemma VerdictsAreSound(o: SimOrder)
    ensures var r := ExecutionOutcome(o);
            && (r.executionState.Filled? ==>
                  ExecutionDecimal(o.filledSize) && ValueOf(o.filledSize) > 0.0 && NormalizeExecutionStatus(o.status) == "FILLED")
            && (r.executionState.Filled? && r.requestedSize.Some? ==>
                  r.fulfillment.Full? && ExecutionDecimal(r.remainingSize.value) && ValueOf(r.remainingSize.value) == 0.0)
            && (r.executionState.NoFill? || r.executionState.Rejected? ==>
                  && ExecutionDecimal(o.filledSize) && ValueOf(o.filledSize) == 0.0
                  && (r.requestedSize.Some? ==> r.fulfillment.Nothing?))
            && (r.executionState.PartialFill? ==> ExecutionDecimal(o.filledSize) && ValueOf(o.filledSize) > 0.0)
            && (!ExecutionDecimal(o.filledSize) ==>
                  && r.executionState.Unknown? && r.status == "UNKNOWN"
                  && r.fulfillment.FulfillmentUnknown? && r.requestedSize.None?)
            && (r.executionState.Pending? ==> !IsTerminalOrderStatus(o.status))
  {
    ReceiptBalances(o);
    if ExecutionDecimal(o.filledSize) {
      AmountSign(o.filledSize);
      if ExecutionDecimal(o.size) {
        AmountSign(o.size);
        CmpValue(Amount(o.filledSize), Amount(o.size));
      }
    }
  }

  // ------------------------------------------------- recorded sizes

  ghost function Total(sizes: seq<string>): real
    requires forall i :: 0 <= i < |sizes| ==> ExecutionDecimal(sizes[i])
  {
    if sizes == [] then 0.0 else Total(sizes[..|sizes| - 1]) + ValueOf(sizes[|sizes| - 1])
  }

  /** Recorded sizes cover an execution exactly when every text is a decimal and they sum to it. */
  method RecordedSizesCover(sizes: seq<string>, executed: string) returns (covers: bool)
    ensures covers <==>
              && ExecutionDecimal(executed)
              && (forall i :: 0 <= i < |sizes| ==> ExecutionDecimal(sizes[i]))
              && Total(sizes) == ValueOf(executed)
  {
    if !ExecutionDecimal(executed) {
      return false;
    }
    var expected := Amount(executed);
    var total := Dec(0, 0);
    for k := 0 to |sizes|
      invariant forall i :: 0 <= i < k ==> ExecutionDecimal(sizes[i])
      invariant total.Value() == Total(sizes[..k])
    {
      if !ExecutionDecimal(sizes[k]) {
        return false;
      }
      AddValue(total, Amount(sizes[k]));
      assert sizes[..k + 1][..k] == sizes[..k];
      total := total.Add(Amount(sizes[k]));
    }
    assert sizes[..|sizes|] == sizes;
    CmpValue(total, expected);
    return Cmp(total, expected) == 0;
  }

  // ------------------------------------------------- evidence

  /** A JSON text: absent or empty, unreadable, or read. */
  datatype Json<T> = Missing | Malformed | Read(value: T)

  datatype Outcomes = Outcomes(
    orderId: string,
    status: string,
    filledSize: string,
    avgFillPrice: Option<string>,
    fillsComplete: Option<bool>)

  /** The immutable original intent. */
  datatype Intent = Intent(objectId: string, size: string, timeInForce: string, marketableIOC: bool)

  datatype Operation = Operation(
    id: string,
    state: OpState,
    outcome: Json<Outcomes>,
    parsedOutcome: Json<Outcomes>,
    input: Json<Intent>)

  datatype Evidence = Evidence(order: SimOrder, fillsComplete: bool)

  /** The outcome text when there is one, otherwise the decoded outcome. */
  function OutcomeOf(op: Operation): Json<Outcomes> { if op.outcome.Missing? then op.parsedOutcome else op.outcome }

  /** The signed venue request decides: a marketable order was sent as immediate-or-cancel whatever the input says. */
  function TimeInForce(i: Intent): string { if i.marketableIOC then "IOC" else i.timeInForce }

  /** operationExecution: an authoritative terminal aggregate, never mere settlement. */
  function OperationExecution(op: Operation, objectId: string): Option<Evidence> {
    var raw := OutcomeOf(op);
    if !op.state.OpCompleted? || !raw.Read? || raw.value.orderId == "" then None
    else
      var v := raw.value;
      var status := NormalizeExecutionStatus(v.status);
      var bare := SimOrder(v.orderId, status, "", v.filledSize, "", v.avgFillPrice);
      if op.input.Read? && op.input.value.objectId != "" && op.input.value.objectId != objectId then None
      else
        var order := if op.input.Read? then bare.(size := op.input.value.size, timeInForce := TimeInForce(op.input.value))
                     else bare;
        if !IsTerminalOrderStatus(status) || ExecutionDisposition(order).0.Unknown? then None
        else Some(Evidence(order, v.fillsComplete.GetOr(false)))
  }

  /** executionUpdate: the observation's identity, status and filled quantity joined to the original intent. */
  function ExecutionUpdate(op: Operation, objectId: string, order: SimOrder): Option<Evidence> {
    OperationExecution(
      op.(state := OpCompleted, outcome := Read(Outcomes(order.id, order.status, order.filledSize, order.avgFillPrice, None))),
      objectId)
  }

  /** Terminal, with a verdict that is neither unknown nor pending. */
  predicate Settles(e: Evidence) {
    && e.order.id != "" && Terminal(e.order.status)
    && var state := ExecutionDisposition(e.order).0; !state.Unknown? && !state.Pending?
  }

  /** Nothing but the original intent, or nothing at all, supplies the requested size. */
  predicate SizeFromIntent(op: Operation, objectId: string, e: Evidence) {
    match op.input
    case Read(i) =>
      && (i.objectId == "" || i.objectId == objectId) && e.order.size == i.size
      && e.order.timeInForce == TimeInForce(i)
    case _ => e.order.size == "" && e.order.timeInForce == ""
  }

  /**
   * What an operation must show to count as evidence; a zero fill called FILLED
   * only as an immediate-or-cancel that bought nothing.
   */
  ghost predicate Admissible(op: Operation, objectId: string) {
    && op.state.OpCompleted? && OutcomeOf(op).Read?
    && var v := OutcomeOf(op).value;
       && v.orderId != "" && IsTerminalOrderStatus(v.status) && ExecutionDecimal(v.filledSize)
       && (op.input.Read? ==> op.input.value.objectId == "" || op.input.value.objectId == objectId)
       && (NormalizeExecutionStatus(v.status) == "FILLED" && ValueOf(v.filledSize) == 0.0 ==>
             && op.input.Read? && ExecutionDecimal(op.input.value.size) && ValueOf(op.input.value.size) > 0.0
             && (op.input.value.marketableIOC || op.input.value.timeInForce == "IOC"))
  }

  /** Evidence is drawn exactly from the admissible operations; it settles the order and carries the intent's size. */
  lemma EvidenceIffAdmissible(op: Operation, objectId: string)
    ensures OperationExecution(op, objectId).Some? <==> Admissible(op, objectId)
    ensures match OperationExecution(op, objectId)
            case Some(e) => Settles(e) && SizeFromIntent(op, objectId, e) && e.order.id == OutcomeOf(op).value.orderId
            case None => true
  {
    var raw := OutcomeOf(op);
    if raw.Read? && ExecutionDecimal(raw.value.filledSize) {
      NormalizeIdempotent(raw.value.status);
      AmountSign(raw.value.filledSize);
      if op.input.Read? && ExecutionDecimal(op.input.value.size) {
        AmountSign(op.input.value.size);
        CmpValue(Amount(raw.value.filledSize), Amount(op.input.value.size));
      }
    }
  }

  /**
   * A correlated observation yields evidence about that order only; its own
   * size and time in force, which venue history may rewrite, never matter.
   */
  lemma UpdateKeepsIntent(op: Operation, objectId: string, order: SimOrder, size: string, timeInForce: string)
    ensures ExecutionUpdate(op, objectId, order) ==
              ExecutionUpdate(op, objectId, order.(size := size, timeInForce := timeInForce))
    ensures match ExecutionUpdate(op, objectId, order)
            case Some(e) =>
              && Settles(e) && SizeFromIntent(op, objectId, e)
              && e.order.id == order.id && e.order.filledSize == order.filledSize
              && e.order.status == NormalizeExecutionStatus(order.status)
            case None => true
  {
    EvidenceIffAdmissible(
      op.(state := OpCompleted, outcome := Read(Outcomes(order.id, order.status, order.filledSize, order.avgFillPrice, None))),
      objectId);
  }

  /** So a receipt drawn from evidence reports, if any, the intent's size, and balances against it. */
  lemma ReceiptReportsIntent(op: Operation, objectId: string, order: SimOrder)
    ensures match ExecutionUpdate(op, objectId, order)
            case Some(e) =>
              var r := ExecutionOutcome(e.order);
              && !r.executionState.Unknown? && !r.executionState.Pending? && r.filledSize == order.filledSize
              && ExecutionDecimal(order.filledSize)
              && (r.requestedSize.Some? ==>
                    && op.input.Read? && r.requestedSize.value == op.input.value.size
                    && ExecutionDecimal(r.requestedSize.value) && ExecutionDecimal(r.remainingSize.value)
                    && ValueOf(r.remainingSize.value) + ValueOf(order.filledSize) == ValueOf(r.requestedSize.value))
            case None => true
  {
    UpdateKeepsIntent(op, objectId, order, "", "");
    var evidence := ExecutionUpdate(op, objectId, order);
    if evidence.Some? {
      ReceiptBalances(evidence.value.order);
      VerdictsAreSound(evidence.value.order);
    }
  }
}
