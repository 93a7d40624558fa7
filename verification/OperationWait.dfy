/**
 * waitForOperation in arca.go: listeners and a recovery worker race to settle
 * one wait. A recovery request is a revision and a token in a channel of
 * capacity one; the worker reads behind a confirmed subscription.
 */
module OperationWait {
  import opened Text
  import opened Operations

  datatype Operation = Operation(id: nat, state: OpState, content: nat)

  const READ_ATTEMPTS := 3

  /** The recovery worker; `covered` is the revision loaded just before the read in flight. */
  datatype Worker =
    | Idle
    | Woken
    | Confirming(attempt: nat)
    | Reading(attempt: nat, covered: nat, acked: bool)
    | Gone

  datatype Wait = Wait(
    revision: nat,
    token: bool,
    senders: nat,
    completed: nat,
    worker: Worker,
    ended: bool,
    settled: bool,
    winners: seq<Operation>,
    results: seq<Operation>,
    failures: seq<Operation>,
    last: Option<Operation>)

  datatype Action =
    | RequestBegins
    | RequestSends
    | TakeToken
    | CheckRevision
    | ReadBegins(acked: bool)
    | ReadEnds(reply: Option<Operation>)
    | Observed(op: Operation)
    | Send(i: nat)
    | Deadline
    | WorkerLeaves

  predicate Fails(o: Operation) { o.state.OpFailed? || o.state.OpExpired? }

  /** tryResolve up to its compare-and-swap; the winner sends afterwards. */
  function TryResolve(w: Wait, id: nat, o: Operation): Wait {
    if o.id != id then w
    else if o.state.OpPending? || w.settled then w.(last := Some(o))
    else w.(last := Some(o), settled := true, winners := w.winners + [o])
  }

  /** What the worker does with the reply to its read. */
  function AfterRead(w: Wait, id: nat, reply: Option<Operation>): Wait
    requires w.worker.Reading?
  {
    var r := w.worker;
    if w.ended || w.settled then w.(worker := Gone)
    else
      var good := reply.Some? && reply.value.id == id;
      var v := if good then TryResolve(w, id, reply.value) else w;
      if v.settled then v.(worker := Gone)
      else if (good && r.acked) || r.attempt + 1 >= READ_ATTEMPTS then v.(worker := Idle, completed := r.covered)
      else v.(worker := Confirming(r.attempt + 1))
  }

  ghost predicate Init(w: Wait) {
    w == Wait(0, false, 0, 0, Idle, false, false, [], [], [], None)
  }

  ghost predicate Step(id: nat, w: Wait, v: Wait, a: Action) {
    match a
    case RequestBegins => v == w.(revision := w.revision + 1, senders := w.senders + 1)
    case RequestSends => w.senders > 0 && v == w.(senders := w.senders - 1, token := true)
    case TakeToken => w.worker.Idle? && w.token && v == w.(token := false, worker := Woken)
    case CheckRevision =>
      w.worker.Woken? && v == w.(worker := if w.settled || w.revision <= w.completed then Idle else Confirming(0))
    case ReadBegins(acked) =>
      && w.worker.Confirming?
      && v == w.(worker := if w.ended || w.settled then Gone else Reading(w.worker.attempt, w.revision, acked))
    case ReadEnds(reply) => w.worker.Reading? && v == AfterRead(w, id, reply)
    case Observed(o) => v == TryResolve(w, id, o)
    case Send(i) =>
      && i < |w.winners|
      && var o := w.winners[i];
         v == if Fails(o) then w.(winners := Without(w.winners, i), failures := w.failures + [o])
              else w.(winners := Without(w.winners, i), results := w.results + [o])
    case Deadline => v == w.(ended := true)
    case WorkerLeaves => w.worker.Idle? && w.ended && v == w.(worker := Gone)
  }

  ghost predicate Run(id: nat, states: seq<Wait>, actions: seq<Action>) {
    && |states| == |actions| + 1
    && Init(states[0])
    && forall k :: 0 <= k < |actions| ==> Step(id, states[k], states[k + 1], actions[k])
  }

  // ------------------------------------------------- invariant

  ghost predicate Inv(id: nat, w: Wait) {
    && w.completed <= w.revision
    && (w.worker.Reading? ==> w.worker.covered <= w.revision)
    && (w.worker.Gone? ==> w.ended || w.settled)
    && ((w.worker.Reading? || w.worker.Confirming?) ==> w.worker.attempt < READ_ATTEMPTS)
    && |w.winners| + |w.results| + |w.failures| == (if w.settled then 1 else 0)
    && (forall o :: o in w.winners + w.results + w.failures ==> o.id == id && !o.state.OpPending?)
    && (w.last.Some? ==> w.last.value.id == id)
    && (forall o :: o in w.results ==> !Fails(o))
    && (forall o :: o in w.failures ==> Fails(o))
  }

  lemma ResolveInv(id: nat, w: Wait, o: Operation)
    requires Inv(id, w)
    ensures Inv(id, TryResolve(w, id, o).(worker := w.worker))
    ensures TryResolve(w, id, o).settled == (w.settled || (o.id == id && !o.state.OpPending?))
  {
  }

  lemma SendInv(id: nat, w: Wait, v: Wait, i: nat)
    requires Inv(id, w) && Step(id, w, v, Send(i))
    ensures Inv(id, v)
  {
  }

  lemma ReplyInv(id: nat, w: Wait, reply: Option<Operation>)
    requires Inv(id, w) && w.worker.Reading?
    ensures Inv(id, AfterRead(w, id, reply))
  {
    if !w.ended && !w.settled && reply.Some? && reply.value.id == id {
      ResolveInv(id, w, reply.value);
      var u := TryResolve(w, id, reply.value);
      assert u == u.(worker := w.worker);
    }
    hide TryResolve;
  }

  lemma StepInv(id: nat, w: Wait, v: Wait, a: Action)
    requires Inv(id, w) && Step(id, w, v, a)
    ensures Inv(id, v)
  {
    match a
    case Observed(o) => ResolveInv(id, w, o);
    case ReadEnds(reply) => ReplyInv(id, w, reply);
    case Send(i) => SendInv(id, w, v, i);
    case _ =>
  }

  lemma {:induction false} ReachableInv(id: nat, states: seq<Wait>, actions: seq<Action>, n: nat)
    requires Run(id, states, actions) && n < |states|
    ensures Inv(id, states[n])
  {
    if n > 0 {
      hide Inv, Step;
      ReachableInv(id, states, actions, n - 1);
      StepInv(id, states[n - 1], states[n], actions[n - 1]);
    }
  }

  // ------------------------------------------------- settled once

  ghost predicate Seen(actions: seq<Action>, n: nat, o: Operation)
    requires n <= |actions|
  {
    exists j :: 0 <= j < n && (actions[j] == Observed(o) || actions[j] == ReadEnds(Some(o)))
  }

  /**
   * Whatever races, at most one outcome is ever sent, so neither channel can
   * block its sender; it is a terminal state of the operation waited for, seen
   * in a push, a snapshot or a read, and it goes to the error channel exactly
   * when it is a failure.
   */
  lemma SettlesOnce(id: nat, states: seq<Wait>, actions: seq<Action>, n: nat)
    requires Run(id, states, actions) && n < |states|
    ensures |states[n].results| + |states[n].failures| <= 1
    ensures forall o :: o in states[n].results ==> o.id == id && o.state.OpCompleted? && Seen(actions, n, o)
    ensures forall o :: o in states[n].failures ==> o.id == id && Fails(o) && Seen(actions, n, o)
  {
    ReachableInv(id, states, actions, n);
    forall o | o in states[n].results + states[n].failures
      ensures o.id == id && !o.state.OpPending? && Seen(actions, n, o)
    {
      assert o in states[n].winners + states[n].results + states[n].failures;
      OutcomeSeen(id, states, actions, n, o);
    }
  }

  lemma {:induction false} OutcomeSeen(id: nat, states: seq<Wait>, actions: seq<Action>, n: nat, o: Operation)
    requires Run(id, states, actions) && n < |states| && o in states[n].winners + states[n].results + states[n].failures
    ensures Seen(actions, n, o)
  {
    var w, v := states[n - 1], states[n];
    assert Step(id, w, v, actions[n - 1]);
    if o in w.winners + w.results + w.failures {
      OutcomeSeen(id, states, actions, n - 1, o);
    }
  }

  // ------------------------------------------------- no lost recovery

  predicate Over(w: Wait) { w.ended || w.settled }

  /** Some token, sender or worker is still on its way to a read, for the request that made revision `r`. */
  ghost predicate Owed(w: Wait, r: nat) {
    && w.completed < r <= w.revision
    && match w.worker
       case Idle => w.token || w.senders > 0
       case Woken => true
       case Confirming(_) => true
       case Reading(_, covered, _) => covered < r && (w.token || w.senders > 0)
       case Gone => false
  }

  lemma OwedStays(id: nat, w: Wait, v: Wait, a: Action, r: nat)
    requires Inv(id, w) && Owed(w, r) && Step(id, w, v, a) && !Over(v) && !a.ReadBegins?
    ensures Owed(v, r)
  {
  }

  /**
   * Every recovery request is followed by a read begun after it, unless the
   * wait ends first, although revisions share one token and one worker.
   */
  lemma {:induction false} NoLostRecovery(id: nat, states: seq<Wait>, actions: seq<Action>, i: nat, n: nat)
    requires Run(id, states, actions) && i < n < |states| && actions[i].RequestBegins? && !Over(states[n])
    ensures Owed(states[n], states[i + 1].revision) || exists j :: i < j < n && actions[j].ReadBegins?
  {
    ReachableInv(id, states, actions, n - 1);
    var w, v := states[n - 1], states[n];
    assert Step(id, w, v, actions[n - 1]);
    if n > i + 1 {
      NoLostRecovery(id, states, actions, i, n - 1);
      if Owed(w, states[i + 1].revision) && !actions[n - 1].ReadBegins? {
        OwedStays(id, w, v, actions[n - 1], states[i + 1].revision);
      }
    }
  }

  /** With the worker idle, no token and no request under way, nothing is owed: every request has had its read. */
  lemma AtRestRecovered(id: nat, states: seq<Wait>, actions: seq<Action>, i: nat, n: nat)
    requires Run(id, states, actions) && i < n < |states| && actions[i].RequestBegins?
    requires var w := states[n]; !Over(w) && w.worker.Idle? && !w.token && w.senders == 0
    ensures exists j :: i < j < n && actions[j].ReadBegins?
  {
    NoLostRecovery(id, states, actions, i, n);
  }

  // ------------------------------------------------- what each step achieves

  /**
   * The first terminal state of the operation awaited settles the wait; any other
   * observation only is the latest one.
   */
  lemma ObservationTakesEffect(id: nat, w: Wait, v: Wait, o: Operation)
    requires Step(id, w, v, Observed(o)) && Inv(id, w)
    ensures v.settled == (w.settled || (o.id == id && o.state != OpPending))
    ensures v.settled && !w.settled ==> v.winners == [o]
    ensures v.last == if o.id == id then Some(o) else w.last
  {
  }

  /** A winner goes to the error channel exactly when it failed or expired. */
  lemma SendTakesEffect(id: nat, w: Wait, v: Wait, i: nat)
    requires Step(id, w, v, Send(i)) && Inv(id, w)
    ensures var o := w.winners[i];
            if o.state == OpFailed || o.state == OpExpired then v.failures == [o] && v.results == w.results
            else v.results == [o] && v.failures == w.failures
  {
    assert |w.winners| == 1 && w.results == [] && w.failures == [];
  }

  /** A token is worth a pass exactly when the wait is open and a revision is not covered yet. */
  lemma TokenTakesEffect(id: nat, w: Wait, v: Wait)
    requires Step(id, w, v, CheckRevision)
    ensures v == w.(worker := if !w.settled && w.completed < w.revision then Confirming(0) else Idle)
  {
  }

  /**
   * What a reply does: past the end of the wait, the worker leaves; a terminal
   * state settles it; a pending one behind a confirmed subscription, or the
   * third attempt, covers the revision loaded before the read; anything else
   * tries again.
   */
  lemma ReplyTakesEffect(id: nat, w: Wait, v: Wait, reply: Option<Operation>)
    requires Step(id, w, v, ReadEnds(reply)) && Inv(id, w)
    ensures var ours := reply.Some? && reply.value.id == id;
            if w.ended || w.settled then v == w.(worker := Gone)
            else if ours && reply.value.state != OpPending then v.settled && v.worker == Gone && v.winners == [reply.value]
            else
              && !v.settled
              && if (ours && w.worker.acked) || w.worker.attempt == 2 then v.worker == Idle && v.completed == w.worker.covered
                 else v.worker == Confirming(w.worker.attempt + 1) && v.completed == w.completed
  {
  }
}
