/**
 * waitExecutionEvidence in operation.go as a step relation: pushes queue up,
 * a reader resolves the order's identity and takes snapshots, and the main
 * loop accepts the first observation that settles the order. Every channel
 * operation, atomic and critical section is a step of its own.
 */
module EvidenceWait {
  import opened Text
  import opened Execution
  import opened Operations

  const MAX_READS := 3
  const HELD_LIMIT := 256

  datatype Event = Event(entity: string, order: Option<SimOrder>, operation: Option<Operation>)

  /** What the reader reports: an order, or an error that may carry a failed operation. */
  datatype Snapshot = Order(value: SimOrder) | ReadError(failure: Option<Operation>)

  datatype Result = Proof(evidence: Evidence) | Failure(op: Operation) | Cancelled

  datatype Main =
    | Fetching
    | Processing(batch: seq<Event>)
    | Holding(ev: Event, rest: seq<Event>)
    | Waiting
    | Returned(result: Result)

  datatype Reader =
    | Placing
    | Resolving
    | Ready(attempt: nat, lookup: string)
    | Getting(attempt: nat, lookup: string)
    | Sending(attempt: nat, lookup: string, snap: Snapshot)
    | Pausing(attempt: nat, lookup: string, timer: bool)
    | Stopped

  /** The order handle's account and the operation it submitted. */
  datatype Handle = Handle(objectId: string, settled: Operation)

  /**
   * `wakers` counts senders between their change and their wake-up. The last
   * three fields record what was observed: pushes, orders read from the
   * account, and settlements of the submitted operation.
   */
  datatype Wait = Wait(
    events: seq<Event>,
    wake: bool,
    wakers: nat,
    recovery: bool,
    resolved: string,
    snapshot: Option<Snapshot>,
    main: Main,
    reader: Reader,
    lookups: nat,
    pushed: set<Event>,
    read: set<SimOrder>,
    placed: set<Operation>)

  predicate FailedOp(op: Operation) { op.state.OpFailed? || op.state.OpExpired? }

  function OrderIdIn(j: Json<Outcomes>): string { if j.Read? then j.value.orderId else "" }

  /** The identity known at submission: the outcome text wins over the decoded outcome. */
  function IdentityOf(op: Operation): string {
    if OrderIdIn(op.outcome) != "" then OrderIdIn(op.outcome) else OrderIdIn(op.parsedOutcome)
  }

  /** resolveOrderID: the decoded outcome first, the operation's own id as a last resort. */
  function ResolveOrderId(op: Operation): string {
    if OrderIdIn(op.parsedOutcome) != "" then OrderIdIn(op.parsedOutcome)
    else if OrderIdIn(op.outcome) != "" then OrderIdIn(op.outcome)
    else op.id
  }

  /** After Submitted: fail, return at once, or start the reader and the loop. */
  function Begin(h: Handle, events: seq<Event>): Wait {
    var id, e := IdentityOf(h.settled), OperationExecution(h.settled, h.objectId);
    Wait(events, false, 0, false, id, None,
         if FailedOp(h.settled) then Returned(Failure(h.settled)) else if e.Some? then Returned(Proof(e.value)) else Fetching,
         if id != "" then Ready(0, id) else Placing,
         0, set ev | ev in events, {}, {})
  }

  /** What one event proves, given the identity resolved so far. */
  function Weigh(h: Handle, resolved: string, ev: Event): Option<Result> {
    var byOperation :=
      if ev.operation.Some? && ev.operation.value.id == h.settled.id then
        if FailedOp(ev.operation.value) then Some(Failure(ev.operation.value))
        else
          var e := OperationExecution(ev.operation.value, h.objectId);
          if e.Some? && (resolved == "" || e.value.order.id == resolved) then Some(Proof(e.value)) else None
      else None;
    if byOperation.Some? then byOperation
    else if OnAccount(h, ev) && resolved != "" then WeighOrder(h, resolved, ev.order.value)
    else None
  }

  predicate OnAccount(h: Handle, ev: Event) { ev.order.Some? && ev.entity == h.objectId }

  function WeighOrder(h: Handle, resolved: string, o: SimOrder): Option<Result> {
    if (resolved == "" || o.id == resolved) && IsTerminalOrderStatus(o.status) then
      var e := ExecutionUpdate(h.settled, h.objectId, o);
      if e.Some? then Some(Proof(e.value)) else None
    else None
  }

  function WeighSnapshot(h: Handle, resolved: string, snap: Snapshot): Option<Result> {
    match snap
    case ReadError(f) => if f.Some? && f.value.id == h.settled.id && FailedOp(f.value) then Some(Failure(f.value)) else None
    case Order(o) => WeighOrder(h, resolved, o)
  }

  datatype Action =
    | Arrive(ev: Event)
    | WakerSends
    | GapSeen
    | Fetch
    | Process
    | Hold
    | TakeWake
    | TakeSnapshot
    | Cancel
    | PlacementFails(failure: Option<Operation>)
    | PlacementSettles(op: Operation)
    | Resolve(op: Operation)
    | NotReady(failure: Option<Operation>)
    | GetBegins
    | GetFails(failure: Option<Operation>)
    | GetReturns(order: SimOrder)
    | SendSnapshot
    | Resume(byRecovery: bool)
    | ReaderStops

  function Identified(w: Wait, id: string): Wait { w.(resolved := id, wakers := w.wakers + 1) }

  ghost predicate MainStep(h: Handle, w: Wait, v: Wait, a: Action) {
    match a
    case Fetch => w.main.Fetching? && v == w.(main := Processing(w.events), events := [])
    case Process =>
      && w.main.Processing?
      && if w.main.batch == [] then v == w.(main := Waiting)
         else
           var ev, rest := w.main.batch[0], w.main.batch[1..];
           var r := Weigh(h, w.resolved, ev);
           v == w.(main := if r.Some? then Returned(r.value)
                           else if OnAccount(h, ev) && w.resolved == "" then Holding(ev, rest)
                           else Processing(rest))
    case Hold =>
      && w.main.Holding?
      && v == w.(main := Processing(w.main.rest), events := if |w.events| < HELD_LIMIT then w.events + [w.main.ev] else w.events)
    case TakeWake => w.main.Waiting? && w.wake && v == w.(wake := false, main := Fetching)
    case TakeSnapshot =>
      && w.main.Waiting? && w.snapshot.Some?
      && var r := WeighSnapshot(h, w.resolved, w.snapshot.value);
         v == w.(snapshot := None, main := if r.Some? then Returned(r.value) else Fetching)
    case Cancel => w.main.Waiting? && v == w.(main := Returned(Cancelled))
    case _ => false
  }

  ghost predicate ReaderStep(h: Handle, w: Wait, v: Wait, a: Action) {
    match a
    case PlacementFails(f) =>
      && (w.reader.Placing? || w.reader.Resolving?)
      && v == w.(reader := Stopped, snapshot := Some(ReadError(f)))
    case PlacementSettles(op) =>
      && w.reader.Placing? && op.id == h.settled.id
      && var u := w.(placed := w.placed + {op});
         var e := OperationExecution(op, h.objectId);
         v == if e.Some? then u.(reader := Stopped, snapshot := Some(Order(e.value.order))) else u.(reader := Resolving)
    case Resolve(op) =>
      && w.reader.Resolving? && op.id == h.settled.id
      && var u := w.(placed := w.placed + {op}, reader := Ready(0, ResolveOrderId(op)));
         v == if ResolveOrderId(op) != h.settled.id then Identified(u, ResolveOrderId(op)) else u
    case NotReady(f) =>
      && w.reader.Ready?
      && v == w.(reader := Sending(w.reader.attempt, w.reader.lookup, ReadError(f)),
                 recovery := if w.reader.attempt == 0 then false else w.recovery)
    case GetBegins =>
      && w.reader.Ready?
      && v == w.(reader := Getting(w.reader.attempt, w.reader.lookup), lookups := w.lookups + 1,
                 recovery := if w.reader.attempt == 0 then false else w.recovery)
    case GetFails(f) => w.reader.Getting? && v == w.(reader := Sending(w.reader.attempt, w.reader.lookup, ReadError(f)))
    case GetReturns(o) =>
      && w.reader.Getting?
      && var u := w.(read := w.read + {o}, reader := Sending(w.reader.attempt, w.reader.lookup, Order(o)));
         v == if o.id != "" && w.resolved == "" then Identified(u, o.id) else u
    case SendSnapshot =>
      && w.reader.Sending? && w.snapshot.None?
      && var n := w.reader.attempt + 1;
         v == w.(snapshot := Some(w.reader.snap),
                 reader := if n < MAX_READS then Pausing(n, w.reader.lookup, w.reader.snap.ReadError?) else Stopped)
    case Resume(byRecovery) =>
      && w.reader.Pausing? && (if byRecovery then w.recovery else w.reader.timer)
      && v == w.(recovery := w.recovery && !byRecovery, reader := Ready(w.reader.attempt, w.reader.lookup))
    case ReaderStops => v == w.(reader := Stopped)
    case _ => false
  }

  ghost predicate Step(h: Handle, w: Wait, v: Wait, a: Action) {
    match a
    case Arrive(ev) =>
      && (ev.order.Some? || ev.operation.Some?)
      && v == w.(events := w.events + [ev], wakers := w.wakers + 1, pushed := w.pushed + {ev})
    case WakerSends => w.wakers > 0 && v == w.(wakers := w.wakers - 1, wake := true)
    case GapSeen => v == w.(recovery := true)
    case _ => MainStep(h, w, v, a) || ReaderStep(h, w, v, a)
  }

  ghost predicate Run(h: Handle, states: seq<Wait>, actions: seq<Action>) {
    && |states| == |actions| + 1
    && states[0] == Begin(h, states[0].events)
    && forall k :: 0 <= k < |actions| ==> Step(h, states[k], states[k + 1], actions[k])
  }

  // ------------------------------------------------- provenance

  /** Evidence read off the submitted operation itself: as submitted, as pushed, or as settled. */
  ghost predicate FromOperation(h: Handle, w: Wait, e: Evidence) {
    || OperationExecution(h.settled, h.objectId) == Some(e)
    || (exists ev :: ev in w.pushed && ev.operation.Some? && ev.operation.value.id == h.settled.id
                     && OperationExecution(ev.operation.value, h.objectId) == Some(e))
    || (exists op :: op in w.placed && SettledInto(h, op, e))
  }

  /** The settlement's own execution, joined to the submitted intent. */
  ghost predicate SettledInto(h: Handle, op: Operation, e: Evidence) {
    && op.id == h.settled.id && OperationExecution(op, h.objectId).Some?
    && ExecutionUpdate(h.settled, h.objectId, OperationExecution(op, h.objectId).value.order) == Some(e)
  }

  /** Evidence joined to an order of this account that carries the identity resolved for the operation. */
  ghost predicate FromOrder(h: Handle, w: Wait, e: Evidence) {
    exists o :: JoinedFrom(h, w, o, e)
  }

  ghost predicate JoinedFrom(h: Handle, w: Wait, o: SimOrder, e: Evidence) {
    && w.resolved != "" && o.id == w.resolved && AccountOrder(h, w, o)
    && ExecutionUpdate(h.settled, h.objectId, o) == Some(e)
  }

  ghost predicate AccountOrder(h: Handle, w: Wait, o: SimOrder) {
    o in w.read || exists ev :: ev in w.pushed && OnAccount(h, ev) && ev.order.value == o
  }

  /** A snapshot is an order read from the account, or the settlement's own execution. */
  ghost predicate SnapshotSound(h: Handle, w: Wait, s: Snapshot) {
    s.Order? ==>
      || (s.value in w.read && (s.value.id != "" ==> w.resolved != ""))
      || exists op :: op in w.placed && op.id == h.settled.id
                      && OperationExecution(op, h.objectId).Some? && OperationExecution(op, h.objectId).value.order == s.value
  }

  ghost predicate AllPushed(w: Wait, evs: seq<Event>) { forall i :: 0 <= i < |evs| ==> evs[i] in w.pushed }

  ghost predicate IdentitySound(h: Handle, w: Wait) {
    w.resolved != "" ==>
      || w.resolved == IdentityOf(h.settled)
      || (exists op :: op in w.placed && op.id == h.settled.id && ResolveOrderId(op) == w.resolved)
      || (exists o :: o in w.read && o.id == w.resolved)
  }

  ghost predicate Sources(h: Handle, w: Wait) {
    && AllPushed(w, w.events)
    && (w.main.Processing? ==> AllPushed(w, w.main.batch))
    && (w.main.Holding? ==> AllPushed(w, w.main.rest) && w.main.ev in w.pushed)
    && (w.snapshot.Some? ==> SnapshotSound(h, w, w.snapshot.value))
    && (w.reader.Sending? ==> SnapshotSound(h, w, w.reader.snap))
    && IdentitySound(h, w)
    && (w.main.Returned? && w.main.result.Proof? ==>
          FromOperation(h, w, w.main.result.evidence) || FromOrder(h, w, w.main.result.evidence))
  }

  ghost predicate ReadsBounded(h: Handle, w: Wait) {
    match w.reader
    case Placing => w.lookups == 0 && w.resolved == ""
    case Resolving => w.lookups == 0 && w.resolved == ""
    case Ready(n, _) => w.lookups <= n < MAX_READS
    case Getting(n, _) => w.lookups <= n + 1 <= MAX_READS
    case Sending(n, _, _) => w.lookups <= n + 1 <= MAX_READS
    case Pausing(n, _, _) => w.lookups <= n < MAX_READS
    case Stopped => w.lookups <= MAX_READS
  }

  /**
   * Nothing waits in the queue unseen: either a wake-up is on its way, or only
   * held orders are left and no identity is known.
   */
  ghost predicate NotStranded(h: Handle, w: Wait) {
    !w.wake && w.wakers == 0 ==>
      && (w.main.Waiting? || w.main.Processing? || w.main.Holding? ==>
            w.events == [] || (w.resolved == "" && forall i :: 0 <= i < |w.events| ==> OnAccount(h, w.events[i])))
      && (w.main.Holding? ==> w.resolved == "" && OnAccount(h, w.main.ev))
  }

  // ------------------------------------------------- every step

  /** The record only grows, and the identity is set at most once. */
  ghost predicate Grows(w: Wait, v: Wait) {
    && w.pushed <= v.pushed && w.read <= v.read && w.placed <= v.placed
    && (w.resolved != "" ==> v.resolved == w.resolved)
  }

  /** The main loop leaves the reader, the record and the identity alone. */
  lemma MainLeavesReader(h: Handle, w: Wait, v: Wait, a: Action)
    requires MainStep(h, w, v, a)
    ensures v.reader == w.reader && v.lookups == w.lookups && v.resolved == w.resolved
    ensures v.pushed == w.pushed && v.read == w.read && v.placed == w.placed
  {
    hide Weigh, WeighSnapshot;
  }

  lemma StepGrows(h: Handle, w: Wait, v: Wait, a: Action)
    requires Step(h, w, v, a) && ReadsBounded(h, w)
    ensures Grows(w, v)
  {
    hide OperationExecution, ResolveOrderId;
    if MainStep(h, w, v, a) { MainLeavesReader(h, w, v, a); }
    hide MainStep;
  }

  lemma ReadsStay(h: Handle, w: Wait, v: Wait, a: Action)
    requires Step(h, w, v, a) && ReadsBounded(h, w)
    ensures ReadsBounded(h, v)
  {
    hide OperationExecution, ResolveOrderId;
    if MainStep(h, w, v, a) { MainLeavesReader(h, w, v, a); }
    hide MainStep;
  }

  lemma StrandedStay(h: Handle, w: Wait, v: Wait, a: Action)
    requires Step(h, w, v, a) && ReadsBounded(h, w) && NotStranded(h, w)
    ensures NotStranded(h, v)
  {
    hide OperationExecution, ExecutionUpdate, Weigh, WeighSnapshot;
  }

  lemma SnapshotSoundStays(h: Handle, w: Wait, v: Wait, s: Snapshot)
    requires SnapshotSound(h, w, s) && Grows(w, v)
    ensures SnapshotSound(h, v, s)
  {
    hide OperationExecution;
  }

  lemma ProofStays(h: Handle, w: Wait, v: Wait, e: Evidence)
    requires (FromOperation(h, w, e) || FromOrder(h, w, e)) && Grows(w, v)
    ensures FromOperation(h, v, e) || FromOrder(h, v, e)
  {
    hide OperationExecution, ExecutionUpdate;
    if FromOrder(h, w, e) {
      var o :| JoinedFrom(h, w, o, e);
      assert JoinedFrom(h, v, o, e);
    }
  }

  /** An accepted event is evidence with a provenance. */
  lemma WeighSound(h: Handle, w: Wait, ev: Event)
    requires ev in w.pushed
    ensures match Weigh(h, w.resolved, ev)
            case Some(Proof(e)) => FromOperation(h, w, e) || FromOrder(h, w, e)
            case _ => true
  {
    hide OperationExecution, ExecutionUpdate;
    var r := Weigh(h, w.resolved, ev);
    if r.Some? && r.value.Proof? && !FromOperation(h, w, r.value.evidence) {
      assert JoinedFrom(h, w, ev.order.value, r.value.evidence);
    }
  }

  lemma WeighSnapshotSound(h: Handle, w: Wait, s: Snapshot)
    requires SnapshotSound(h, w, s)
    ensures match WeighSnapshot(h, w.resolved, s)
            case Some(Proof(e)) => FromOperation(h, w, e) || FromOrder(h, w, e)
            case _ => true
  {
    var r := WeighSnapshot(h, w.resolved, s);
    if r.Some? && r.value.Proof? {
      UpdateKeepsIntent(h.settled, h.objectId, s.value, "", "");
      hide OperationExecution, ExecutionUpdate;
      if s.value in w.read && (s.value.id != "" ==> w.resolved != "") {
        assert JoinedFrom(h, w, s.value, r.value.evidence);
      }
    }
  }

  /** What a reader's step leaves behind: sound snapshots and a sound identity, the main loop untouched. */
  lemma ReaderSound(h: Handle, w: Wait, v: Wait, a: Action)
    requires ReaderStep(h, w, v, a) && Sources(h, w) && ReadsBounded(h, w) && Grows(w, v)
    ensures v.main == w.main && v.events == w.events && IdentitySound(h, v)
    ensures v.snapshot.Some? ==> SnapshotSound(h, v, v.snapshot.value)
    ensures v.reader.Sending? ==> SnapshotSound(h, v, v.reader.snap)
  {
    hide FromOperation, FromOrder, ExecutionUpdate, OperationExecution;
    if w.snapshot.Some? { SnapshotSoundStays(h, w, v, w.snapshot.value); }
    if w.reader.Sending? { SnapshotSoundStays(h, w, v, w.reader.snap); }
  }

  /** What counts as a source is decided by the record alone. */
  lemma SameRecord(h: Handle, w: Wait, v: Wait)
    requires v.pushed == w.pushed && v.read == w.read && v.placed == w.placed && v.resolved == w.resolved
    ensures IdentitySound(h, v) == IdentitySound(h, w)
    ensures forall s :: SnapshotSound(h, v, s) == SnapshotSound(h, w, s)
    ensures forall e :: FromOperation(h, w, e) || FromOrder(h, w, e) ==> FromOperation(h, v, e) || FromOrder(h, v, e)
  {
    hide OperationExecution, ExecutionUpdate;
    forall e | FromOperation(h, w, e) || FromOrder(h, w, e)
      ensures FromOperation(h, v, e) || FromOrder(h, v, e)
    {
      ProofStays(h, w, v, e);
    }
  }

  lemma MainSound(h: Handle, w: Wait, v: Wait, a: Action)
    requires MainStep(h, w, v, a) && Sources(h, w)
    ensures Sources(h, v)
  {
    assert w.main.Returned? ==> v.main == w.main;
    if a.Process? && w.main.batch != [] {
      WeighSound(h, w, w.main.batch[0]);
    }
    if a.TakeSnapshot? {
      WeighSnapshotSound(h, w, w.snapshot.value);
    }
    assert v.main.Returned? && v.main.result.Proof? ==>
        FromOperation(h, w, v.main.result.evidence) || FromOrder(h, w, v.main.result.evidence);
    SameRecord(h, w, v);
    hide FromOperation, FromOrder, Weigh, WeighSnapshot, IdentitySound, SnapshotSound;
  }

  ghost predicate Inv(h: Handle, w: Wait) { Sources(h, w) && ReadsBounded(h, w) && NotStranded(h, w) }

  /** A step that leaves the main loop alone keeps every source, given sound snapshots and a sound identity. */
  lemma OthersKeepSources(h: Handle, w: Wait, v: Wait)
    requires Sources(h, w) && Grows(w, v) && v.main == w.main && AllPushed(v, v.events) && IdentitySound(h, v)
    requires v.snapshot.Some? ==> SnapshotSound(h, v, v.snapshot.value)
    requires v.reader.Sending? ==> SnapshotSound(h, v, v.reader.snap)
    ensures Sources(h, v)
  {
    hide FromOperation, FromOrder, SnapshotSound, IdentitySound;
    if w.main.Returned? && w.main.result.Proof? { ProofStays(h, w, v, w.main.result.evidence); }
  }

  /** Pushes, wake-ups and gaps. */
  lemma ListenersSound(h: Handle, w: Wait, v: Wait, a: Action)
    requires Step(h, w, v, a) && Sources(h, w) && Grows(w, v) && (a.Arrive? || a.WakerSends? || a.GapSeen?)
    ensures v.main == w.main && AllPushed(v, v.events) && IdentitySound(h, v)
    ensures v.snapshot.Some? ==> SnapshotSound(h, v, v.snapshot.value)
    ensures v.reader.Sending? ==> SnapshotSound(h, v, v.reader.snap)
  {
    hide FromOperation, FromOrder, OperationExecution, MainStep, ReaderStep;
    if w.snapshot.Some? { SnapshotSoundStays(h, w, v, w.snapshot.value); }
    if w.reader.Sending? { SnapshotSoundStays(h, w, v, w.reader.snap); }
  }

  lemma SourcesStay(h: Handle, w: Wait, v: Wait, a: Action)
    requires Step(h, w, v, a) && Sources(h, w) && ReadsBounded(h, w)
    ensures Sources(h, v)
  {
    hide MainStep, ReaderStep, Sources, ReadsBounded, SnapshotSound, IdentitySound;
    StepGrows(h, w, v, a);
    if a.Arrive? || a.WakerSends? || a.GapSeen? {
      ListenersSound(h, w, v, a);
      OthersKeepSources(h, w, v);
    } else if MainStep(h, w, v, a) {
      MainSound(h, w, v, a);
    } else {
      ReaderSound(h, w, v, a);
      QueueStays(h, w, v);
      OthersKeepSources(h, w, v);
    }
  }

  lemma QueueStays(h: Handle, w: Wait, v: Wait)
    requires Sources(h, w) && Grows(w, v) && v.events == w.events
    ensures AllPushed(v, v.events)
  {
    hide FromOperation, FromOrder, SnapshotSound, IdentitySound;
  }

  lemma BeginInv(h: Handle, events: seq<Event>)
    ensures Inv(h, Begin(h, events))
  {
    hide OperationExecution;
  }

  lemma {:induction false} ReachableInv(h: Handle, states: seq<Wait>, actions: seq<Action>, n: nat)
    requires Run(h, states, actions) && n < |states|
    ensures Inv(h, states[n])
  {
    hide Step, Sources, ReadsBounded, NotStranded, Begin;
    if n == 0 {
      BeginInv(h, states[0].events);
    } else {
      ReachableInv(h, states, actions, n - 1);
      SourcesStay(h, states[n - 1], states[n], actions[n - 1]);
      ReadsStay(h, states[n - 1], states[n], actions[n - 1]);
      StrandedStay(h, states[n - 1], states[n], actions[n - 1]);
    }
  }

  // ------------------------------------------------- the contract

  /**
   * Whatever the order of pushes, identity resolution and snapshot reads,
   * evidence that is returned was read off the submitted operation, or off an
   * order of the same account whose id is the one resolved for it; it settles
   * the order; and one call makes at most three order reads.
   */
  lemma EvidenceIsOurs(h: Handle, states: seq<Wait>, actions: seq<Action>, n: nat)
    requires Run(h, states, actions) && n < |states|
    ensures var w := states[n];
            && w.lookups <= MAX_READS
            && (w.main.Returned? && w.main.result.Proof? ==>
                  var e := w.main.result.evidence;
                  Settles(e) && (FromOperation(h, w, e) || FromOrder(h, w, e)))
  {
    ReachableInv(h, states, actions, n);
    var w := states[n];
    if w.main.Returned? && w.main.result.Proof? {
      ProvenanceSettles(h, w, w.main.result.evidence);
    }
  }

  lemma ProvenanceSettles(h: Handle, w: Wait, e: Evidence)
    requires FromOperation(h, w, e) || FromOrder(h, w, e)
    ensures Settles(e)
  {
    hide OperationExecution, ExecutionUpdate, Settles;
    if FromOrder(h, w, e) {
      var o :| JoinedFrom(h, w, o, e);
      UpdateKeepsIntent(h.settled, h.objectId, o, "", "");
    } else if OperationExecution(h.settled, h.objectId) == Some(e) {
      EvidenceIffAdmissible(h.settled, h.objectId);
    } else if op: Operation :| op in w.placed && SettledInto(h, op, e) {
      UpdateKeepsIntent(h.settled, h.objectId, OperationExecution(op, h.objectId).value.order, "", "");
    } else {
      var ev :| ev in w.pushed && ev.operation.Some? && ev.operation.value.id == h.settled.id
                && OperationExecution(ev.operation.value, h.objectId) == Some(e);
      EvidenceIffAdmissible(ev.operation.value, h.objectId);
    }
  }

  /** The identity is set at most once, and only from the submitted operation or from an order read for it. */
  lemma {:induction false} IdentitySetOnce(h: Handle, states: seq<Wait>, actions: seq<Action>, i: nat, n: nat)
    requires Run(h, states, actions) && i <= n < |states| && states[i].resolved != ""
    ensures states[n].resolved == states[i].resolved && IdentitySound(h, states[n])
  {
    hide Step, NotStranded, ReadsBounded, FromOperation, FromOrder, SnapshotSound;
    ReachableInv(h, states, actions, n);
    if i < n {
      IdentitySetOnce(h, states, actions, i, n - 1);
      ReachableInv(h, states, actions, n - 1);
      StepGrows(h, states[n - 1], states[n], actions[n - 1]);
    }
  }

  /**
   * No observation is slept on: when the loop waits with no wake-up in the
   * channel or on its way, what is left in the queue are orders of the account
   * kept for an identity that is still unknown.
   */
  lemma NothingSleptOn(h: Handle, states: seq<Wait>, actions: seq<Action>, n: nat)
    requires Run(h, states, actions) && n < |states|
    requires states[n].main.Waiting? && !states[n].wake && states[n].wakers == 0
    ensures forall i :: 0 <= i < |states[n].events| ==> OnAccount(h, states[n].events[i])
    ensures states[n].events != [] ==> states[n].resolved == ""
  {
    ReachableInv(h, states, actions, n);
  }
}
