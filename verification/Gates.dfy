/**
 * The coalescing gates of streams.go: ExchangeWatchStream.Refresh and the
 * recreate methods of the aggregation and projection streams. A request made
 * while a run is in flight sets one flag; the run in flight may predate the
 * request, so the flag must lead to another one.
 */
module Gates {
  import opened Text

  datatype Kind = Refresh | Aggregation | Projection

  /** A worker about to run, running, or about to give the gate back; `sawClosed` is what it read on entering. */
  datatype Worker = Entering | Running | Leaving(sawClosed: bool)

  datatype Gate = Gate(active: bool, again: bool, closed: bool, workers: seq<Worker>)

  datatype Action =
    | Request
    | Enter(i: nat, begins: bool)
    | Retry(i: nat)
    | Finish(i: nat)
    | Leave(i: nat)
    | Close

  /** The entry region: queue behind the worker at work, or become the worker. */
  function Enqueue(kind: Kind, g: Gate): Gate {
    if kind.Projection? && g.closed then g
    else if g.active then g.(again := true)
    else g.(active := true, again := if kind.Refresh? then false else g.again, workers := g.workers + [Entering])
  }

  /** The exit region: once more, or give the gate back. */
  function Release(kind: Kind, g: Gate, i: nat): Gate
    requires i < |g.workers| && g.workers[i].Leaving?
  {
    if kind.Refresh? then
      if g.again && !g.workers[i].sawClosed then g.(again := false, workers := g.workers[i := Entering])
      else g.(active := false, workers := Without(g.workers, i))
    else
      if g.again && !g.closed then g.(again := false, workers := g.workers[i := Entering])
      else g.(again := false, active := false, workers := Without(g.workers, i))
  }

  /**
   * A worker runs unless it finds the stream closed. The projection stream
   * learns of the close through a channel closed later, so it may still run.
   */
  ghost predicate Step(kind: Kind, g: Gate, h: Gate, a: Action) {
    match a
    case Request => h == Enqueue(kind, g)
    case Enter(i, begins) =>
      && i < |g.workers| && g.workers[i].Entering?
      && (if begins then kind.Projection? || !g.closed else g.closed)
      && h == g.(workers := g.workers[i := if begins then Running else Leaving(true)])
    case Retry(i) => kind.Projection? && i < |g.workers| && g.workers[i].Running? && h == g
    case Finish(i) => i < |g.workers| && g.workers[i].Running? && h == g.(workers := g.workers[i := Leaving(false)])
    case Leave(i) => i < |g.workers| && g.workers[i].Leaving? && h == Release(kind, g, i)
    case Close => h == g.(closed := true)
  }

  ghost predicate Run(kind: Kind, states: seq<Gate>, actions: seq<Action>) {
    && |states| == |actions| + 1
    && states[0] == Gate(false, false, false, [])
    && forall k :: 0 <= k < |actions| ==> Step(kind, states[k], states[k + 1], actions[k])
  }

  predicate BeginsRun(a: Action) { a.Retry? || (a.Enter? && a.begins) }

  ghost predicate Inv(g: Gate) {
    && |g.workers| == (if g.active then 1 else 0)
    && (g.active && g.workers[0] == Leaving(true) ==> g.closed)
  }

  /** One runs at a time. */
  lemma {:induction false} OneAtATime(kind: Kind, states: seq<Gate>, actions: seq<Action>, n: nat)
    requires Run(kind, states, actions) && n < |states|
    ensures Inv(states[n])
    ensures |states[n].workers| <= 1
  {
    if n > 0 {
      OneAtATime(kind, states, actions, n - 1);
      assert Step(kind, states[n - 1], states[n], actions[n - 1]);
    }
  }

  /** A run that has not begun is still to come. */
  ghost predicate Owed(g: Gate) {
    g.workers != [] && (g.again || g.workers[0].Entering?)
  }

  /** How many worker steps away the owed run is. */
  function Distance(g: Gate): nat
    requires g.workers != []
  {
    match g.workers[0] case Entering => 0 case Leaving(_) => 1 case Running => 2
  }

  lemma OwedStays(kind: Kind, g: Gate, h: Gate, a: Action)
    requires Inv(g) && Owed(g) && Step(kind, g, h, a) && !h.closed && !BeginsRun(a)
    ensures Owed(h)
    ensures if a.Request? then Distance(h) == Distance(g) else Distance(h) < Distance(g)
  {
  }

  /** No lost wakeup: after a request, a run has begun since, or one is owed and at most two worker steps away. */
  lemma {:induction false} NoLostRequest(kind: Kind, states: seq<Gate>, actions: seq<Action>, i: nat, n: nat)
    requires Run(kind, states, actions) && i < n < |states| && actions[i].Request? && !states[n].closed
    ensures Owed(states[n]) || exists j :: i < j < n && BeginsRun(actions[j])
  {
    OneAtATime(kind, states, actions, n - 1);
    assert Step(kind, states[n - 1], states[n], actions[n - 1]);
    if n > i + 1 {
      NoLostRequest(kind, states, actions, i, n - 1);
      if Owed(states[n - 1]) && !BeginsRun(actions[n - 1]) {
        OwedStays(kind, states[n - 1], states[n], actions[n - 1]);
      }
    }
  }

  /** So a gate at rest on an open stream has served every request with a run begun after it. */
  lemma AtRestServed(kind: Kind, states: seq<Gate>, actions: seq<Action>, i: nat, n: nat)
    requires Run(kind, states, actions) && i < n < |states| && actions[i].Request?
    requires !states[n].closed && states[n].workers == []
    ensures exists j :: i < j < n && BeginsRun(actions[j])
  {
    NoLostRequest(kind, states, actions, i, n);
  }

  /** n requests, one after the other. */
  function EnqueueMany(kind: Kind, g: Gate, n: nat): Gate {
    if n == 0 then g else Enqueue(kind, EnqueueMany(kind, g, n - 1))
  }

  /** And a burst of requests during one run, however many, costs exactly one more: the flag does not count. */
  lemma {:induction false} RequestsCoalesce(kind: Kind, g: Gate, n: nat)
    requires Inv(g) && g.active && n > 0
    ensures EnqueueMany(kind, g, n) == Enqueue(kind, g)
    ensures !g.closed && g.workers[0] == Leaving(false) ==>
              Release(kind, EnqueueMany(kind, g, n), 0) == Gate(true, false, false, [Entering])
  {
    if n > 1 {
      RequestsCoalesce(kind, g, n - 1);
    } else {
      assert EnqueueMany(kind, g, 0) == g;
      assert g.workers[0].Leaving? ==> g.workers[0 := Entering] == [Entering];
    }
  }

  /** Without a request the worker gives the gate back: no run is made that nobody asked for. */
  lemma QuietGateRests(kind: Kind, g: Gate, h: Gate)
    requires Inv(g) && Step(kind, g, h, Leave(0)) && !g.again
    ensures h.workers == [] && !h.active
  {
  }

  /** A request on an idle gate starts one worker, unless a projection stream has stopped. */
  lemma IdleGateStarts(kind: Kind, g: Gate, h: Gate)
    requires Inv(g) && !g.active && Step(kind, g, h, Request)
    ensures if kind == Projection && g.closed then h == g else h.active && h.workers == [Entering]
  {
  }
}
