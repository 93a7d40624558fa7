/**
 * Observation epochs and fallback recovery of ExchangeWatchStream in
 * streams.go. An atomic step is one region under observationMu or mu; timers,
 * pushes and reads fire and land in any order.
 */
module ExchangeWatch {
  import opened Text

  // ------------------------------------------------- observations

  /** A timestamp field: empty, unparsable, or an instant; 0 is the zero time. */
  datatype Stamp = Absent | Malformed | At(instant: int)

  datatype Allocation = Allocation(asOf: Stamp, validUntil: Stamp)

  datatype ExchangeState = ExchangeState(content: nat, observedAt: Stamp, allocation: Option<Allocation>)

  /** The instant the platform began the read, 0 when the observation carries none. */
  function ObservationTime(s: ExchangeState): int {
    if s.observedAt.At? then s.observedAt.instant
    else if s.allocation.Some? && s.allocation.value.asOf.At? then s.allocation.value.asOf.instant
    else 0
  }

  predicate Stamped(s: ExchangeState) { ObservationTime(s) != 0 }

  predicate ObservedBefore(s: ExchangeState, other: ExchangeState) {
    Stamped(s) && Stamped(other) && ObservationTime(s) < ObservationTime(other)
  }

  /** For stamped observations the test is a strict order; an unstamped one is never older and never newer. */
  lemma ObservedBeforeOrders(a: ExchangeState, b: ExchangeState, c: ExchangeState)
    ensures !ObservedBefore(a, a)
    ensures ObservedBefore(a, b) && ObservedBefore(b, c) ==> ObservedBefore(a, c)
    ensures Stamped(b) && !ObservedBefore(b, a) && !ObservedBefore(c, b) ==> !ObservedBefore(c, a)
  {
  }

  datatype Lifetime = Unlimited | Expired | For(delay: int)

  /** How long an observation may be held: the time left at `now`, and never more than the platform's own budget. */
  function LifetimeOf(s: ExchangeState, now: int): Lifetime {
    if s.allocation.None? || s.allocation.value.validUntil.Absent? then Unlimited
    else
      var a := s.allocation.value;
      if a.validUntil.Malformed? || a.asOf.Malformed? then Expired
      else
        var left := a.validUntil.instant - now;
        var delay := if a.asOf.At? && a.validUntil.instant - a.asOf.instant < left
                     then a.validUntil.instant - a.asOf.instant else left;
        if delay <= 0 then Expired else For(delay)
  }

  /** When an observation was read: its own stamp if that reads, otherwise its allocation's, otherwise unknown. */
  lemma ObservationTimeReads(s: ExchangeState, t: int)
    ensures s.observedAt == At(t) ==> ObservationTime(s) == t
    ensures !s.observedAt.At? && s.allocation.Some? && s.allocation.value.asOf == At(t) ==> ObservationTime(s) == t
    ensures !s.observedAt.At? && (s.allocation.None? || !s.allocation.value.asOf.At?) ==> !Stamped(s)
  {
  }

  /**
   * How long it may be held: for ever without a deadline, not at all past one or
   * with one that does not read, and never past either limit.
   */
  lemma LifetimeReads(s: ExchangeState, now: int)
    ensures LifetimeOf(s, now).Unlimited? <==> s.allocation.None? || s.allocation.value.validUntil == Absent
    ensures s.allocation.Some? && s.allocation.value.validUntil != Absent ==>
              var a := s.allocation.value;
              LifetimeOf(s, now).Expired? <==>
                || a.validUntil == Malformed || a.asOf == Malformed || a.validUntil.instant <= now
                || (a.asOf.At? && a.validUntil.instant <= a.asOf.instant)
    ensures match LifetimeOf(s, now)
            case For(d) =>
              var a := s.allocation.value;
              && d > 0 && d <= a.validUntil.instant - now && (a.asOf.At? ==> d <= a.validUntil.instant - a.asOf.instant)
              && (d == a.validUntil.instant - now || (a.asOf.At? && d == a.validUntil.instant - a.asOf.instant))
            case _ => true
  {
  }

  // ------------------------------------------------- recovery delay

  const SECOND: int := 1_000_000_000
  const RECOVERY_MAX: int := 30 * SECOND
  const ATTEMPT_CAP := 10

  function Pow2(n: nat): nat { if n == 0 then 1 else 2 * Pow2(n - 1) }

  /** A 64-bit signed value, wrapped. */
  function Wrap64(x: int): int {
    var m := x % 0x1_0000_0000_0000_0000;
    if m >= 0x8000_0000_0000_0000 then m - 0x1_0000_0000_0000_0000 else m
  }

  /** The delay before jitter: one second shifted left, with the 64-bit wrap of the shift, capped. */
  function RecoveryDelay(attempt: nat): int {
    var base := Wrap64(SECOND * Pow2(attempt));
    if base > RECOVERY_MAX || base <= 0 then RECOVERY_MAX else base
  }

  lemma {:induction false} Pow2Splits(a: nat, b: nat)
    ensures Pow2(a + b) == Pow2(a) * Pow2(b)
  {
    if a > 0 {
      Pow2Splits(a - 1, b);
      assert a + b - 1 == a - 1 + b;
    }
  }

  lemma {:induction false} Pow2Grows(a: nat, b: nat)
    requires a <= b
    ensures Pow2(a) <= Pow2(b)
  {
    if a < b { Pow2Grows(a, b - 1); }
  }

  /** A wrapped multiple of 2^43 is still one, so it is never a short positive delay. */
  lemma WrappedMultiple(q: int)
    ensures var w := Wrap64(0x800_0000_0000 * q); w <= 0 || w >= 0x800_0000_0000
  {
    var x := 0x800_0000_0000 * q;
    var k := x / 0x1_0000_0000_0000_0000;
    assert x % 0x1_0000_0000_0000_0000 == 0x800_0000_0000 * (q - 0x20_0000 * k);
  }

  /**
   * The delay doubles from one second and stays at thirty, for any number of
   * attempts: neither the 64-bit wrap nor a shift past the word ever shortens it.
   */
  lemma DelayDoublesToCap(attempt: nat)
    ensures RecoveryDelay(attempt) == if attempt < 5 then SECOND * Pow2(attempt) else RECOVERY_MAX
    ensures SECOND == 1_000_000_000 && RECOVERY_MAX == 30_000_000_000
    ensures SECOND <= RecoveryDelay(attempt) <= RECOVERY_MAX
    ensures var twice := 2 * RecoveryDelay(attempt);
            RecoveryDelay(attempt + 1) == if twice < RECOVERY_MAX then twice else RECOVERY_MAX
  {
    DelayAt(attempt);
    DelayAt(attempt + 1);
  }

  lemma DelayAt(attempt: nat)
    ensures RecoveryDelay(attempt) == if attempt < 5 then SECOND * Pow2(attempt) else RECOVERY_MAX
    ensures attempt < 5 ==> 1 <= Pow2(attempt) <= 16 && (attempt < 4 <==> Pow2(attempt) < 16)
  {
    if attempt < 5 {
      assert Pow2(0) == 1 && Pow2(1) == 2 && Pow2(2) == 4 && Pow2(3) == 8 && Pow2(4) == 16;
    } else if attempt <= 33 {
      FittingDelay(attempt);
    } else {
      WrappedDelay(attempt);
    }
  }

  lemma FittingDelay(attempt: nat)
    requires 5 <= attempt <= 33
    ensures RecoveryDelay(attempt) == RECOVERY_MAX
  {
    Pow2Grows(5, attempt);
    Pow2Grows(attempt, 33);
    Pow2At33();
    assert Pow2(5) == 32;
    hide Pow2;
    var x := SECOND * Pow2(attempt);
    assert RECOVERY_MAX < x < 0x8000_0000_0000_0000;
    assert x % 0x1_0000_0000_0000_0000 == x;
  }

  lemma WrappedDelay(attempt: nat)
    requires attempt > 33
    ensures RecoveryDelay(attempt) == RECOVERY_MAX
  {
    var p := Pow2(attempt - 34);
    Pow2Splits(34, attempt - 34);
    Pow2At33();
    assert Pow2(34) == 2 * Pow2(33);
    assert SECOND * Pow2(attempt) == 0x800_0000_0000 * (1953125 * p);
    hide Pow2, Wrap64;
    WrappedMultiple(1953125 * p);
  }

  lemma Pow2At33()
    ensures Pow2(33) == 0x2_0000_0000
  {
    Pow2Splits(11, 11);
    Pow2Splits(22, 11);
    assert Pow2(11) == 2048;
  }

  // ------------------------------------------------- the stream's lock regions

  datatype WatchState = Loading | Connected | Reconnecting

  /**
   * The fields of the stream. `expiry` is the epoch whose expiry timer is
   * pending, `recovery` whether a recovery timer is, and `cleaned` whether
   * Close has reached its clean-up under observationMu.
   */
  datatype Stream = Stream(
    epoch: nat,
    state: WatchState,
    value: Option<ExchangeState>,
    expiry: Option<nat>,
    recovery: bool,
    attempt: nat,
    closed: bool,
    cleaned: bool)

  function ScheduleRecovery(s: Stream): Stream {
    s.(recovery := true, attempt := if s.attempt < ATTEMPT_CAP then s.attempt + 1 else s.attempt)
  }

  function ClearRecovery(s: Stream): Stream { s.(recovery := false, attempt := 0) }

  /** The emission of a value: nothing on a closed stream. */
  function Publish(s: Stream, v: ExchangeState): Stream {
    if s.closed then s else s.(value := Some(v), state := Connected)
  }

  /** An observation captured at `epoch` is taken unless the epoch has moved or the state held is newer. */
  predicate Accepts(s: Stream, epoch: nat, v: ExchangeState) {
    s.epoch == epoch && !(s.value.Some? && ObservedBefore(v, s.value.value))
  }

  function Emit(s: Stream, epoch: nat, v: ExchangeState, now: int): Stream {
    if !Accepts(s, epoch, v) then s
    else
      var e := s.epoch + 1;
      match LifetimeOf(v, now)
      case Expired => s.(epoch := e, expiry := Some(e))
      case For(_) => Publish(ClearRecovery(s.(epoch := e, expiry := Some(e))), v)
      case Unlimited => Publish(ClearRecovery(s.(epoch := e, expiry := None)), v)
  }

  function Invalidate(s: Stream, epoch: nat): Stream {
    if s.epoch != epoch then s
    else
      var t := s.(epoch := s.epoch + 1, expiry := None);
      if s.closed then t else ScheduleRecovery(t.(value := None, state := Reconnecting))
  }

  // ------------------------------------------------- the running system

  /** Goroutines and callbacks in flight. */
  datatype Task =
    | Pushed(epoch: nat, v: ExchangeState)
    | Invalidating(epoch: nat)
    | Reading(epoch: nat)
    | Recovering
    | Refreshing
    | Rearming

  datatype System = System(s: Stream, tasks: map<nat, Task>, next: nat)

  datatype Notification = Unavailable | Push(v: ExchangeState) | NeedsRead

  datatype Action =
    | Notify(n: Notification)
    | ReadBegins
    | ReadFails(k: nat)
    | Lands(k: nat, v: ExchangeState, now: int)
    | InvalidationLands(k: nat)
    | ExpiryFires
    | RecoveryFires
    | RecoveryChecks(k: nat)
    | RecoveryRefreshes(k: nat)
    | RecoveryRearms(k: nat)
    | CloseBegins
    | CloseCleans

  ghost predicate Init(z: System) {
    z.s == Stream(0, Loading, None, None, false, 0, false, false) && z.tasks == map[]
  }

  function Spawn(z: System, s: Stream, t: Task): System { System(s, z.tasks[z.next := t], z.next + 1) }

  /** What a notification sets off. */
  function TaskFor(n: Notification, epoch: nat): Task {
    match n
    case Unavailable => Invalidating(epoch)
    case Push(v) => Pushed(epoch, v)
    case NeedsRead => Reading(epoch)
  }

  function Done(z: System, k: nat, s: Stream): System { z.(s := s, tasks := z.tasks - {k}) }

  predicate Empty(s: Stream) { s.value.None? && !s.closed }

  ghost predicate Step(z: System, y: System, a: Action) {
    match a
    case Notify(n) =>
      var s := z.s.(epoch := z.s.epoch + 1);
      y == Spawn(z, s, TaskFor(n, s.epoch))
    case ReadBegins => y == Spawn(z, z.s, Reading(z.s.epoch))
    case ReadFails(k) => k in z.tasks && z.tasks[k].Reading? && y == Done(z, k, z.s)
    case Lands(k, v, now) =>
      && k in z.tasks && (z.tasks[k].Reading? || (z.tasks[k].Pushed? && z.tasks[k].v == v))
      && y == Done(z, k, Emit(z.s, z.tasks[k].epoch, v, now))
    case InvalidationLands(k) =>
      k in z.tasks && z.tasks[k].Invalidating? && y == Done(z, k, Invalidate(z.s, z.tasks[k].epoch))
    case ExpiryFires => z.s.expiry.Some? && y == Spawn(z, z.s.(expiry := None), Invalidating(z.s.expiry.value))
    case RecoveryFires => z.s.recovery && y == Spawn(z, z.s.(recovery := false), Recovering)
    case RecoveryChecks(k) =>
      && k in z.tasks && z.tasks[k].Recovering?
      && y == if Empty(z.s) then z.(tasks := z.tasks[k := Refreshing]) else Done(z, k, z.s)
    case RecoveryRefreshes(k) => k in z.tasks && z.tasks[k].Refreshing? && y == z.(tasks := z.tasks[k := Rearming])
    case RecoveryRearms(k) =>
      k in z.tasks && z.tasks[k].Rearming? && y == Done(z, k, if Empty(z.s) then ScheduleRecovery(z.s) else z.s)
    case CloseBegins => y == z.(s := z.s.(closed := true))
    case CloseCleans => z.s.closed && y == z.(s := ClearRecovery(z.s.(expiry := None, cleaned := true)))
  }

  ghost predicate Run(states: seq<System>, actions: seq<Action>) {
    && |states| == |actions| + 1
    && Init(states[0])
    && forall k :: 0 <= k < |actions| ==> Step(states[k], states[k + 1], actions[k])
  }

  // ------------------------------------------------- invariant

  /** A recovery callback somewhere between its timer and its re-arming. */
  ghost predicate Recovers(z: System, k: nat) {
    k in z.tasks && (z.tasks[k].Recovering? || z.tasks[k].Refreshing? || z.tasks[k].Rearming?)
  }

  ghost predicate Inv(z: System) {
    && (z.s.value.Some? <==> z.s.state.Connected?)
    && (forall k :: k in z.tasks ==> k < z.next)
    && (forall k :: k in z.tasks && (z.tasks[k].Pushed? || z.tasks[k].Reading?) ==> z.tasks[k].epoch <= z.s.epoch)
    && (z.s.state.Reconnecting? && !z.s.closed ==> z.s.recovery || exists k :: Recovers(z, k))
    && (z.s.recovery ==> !z.s.state.Loading?)
    && (forall k :: Recovers(z, k) ==> !z.s.state.Loading?)
    && z.s.attempt <= ATTEMPT_CAP
    && (z.s.cleaned ==> z.s.closed && !z.s.recovery)
  }

  /** A callback that is not the one stepping stays in flight. */
  lemma RecoversStays(z: System, y: System, k: nat)
    requires Recovers(z, k) && k in y.tasks && y.tasks[k] == z.tasks[k]
    ensures exists j :: Recovers(y, j)
  {
    assert Recovers(y, k);
  }

  lemma SpawnInv(z: System, s: Stream, t: Task)
    requires Inv(z) && s == z.s.(epoch := s.epoch, expiry := s.expiry, recovery := s.recovery) && z.s.epoch <= s.epoch
    requires (t.Pushed? || t.Reading?) ==> t.epoch <= s.epoch
    requires s.recovery == z.s.recovery || (!s.recovery && z.s.recovery && t.Recovering?)
    requires t.Recovering? ==> z.s.recovery
    requires !t.Refreshing? && !t.Rearming?
    ensures Inv(Spawn(z, s, t))
  {
    var y := Spawn(z, s, t);
    forall j | Recovers(y, j)
      ensures !y.s.state.Loading?
    {
      assert j == z.next || Recovers(z, j);
      assert !Recovers(z, z.next);
    }
    if s.state.Reconnecting? && !s.closed && !s.recovery {
      if z.s.recovery {
        assert Recovers(y, z.next);
      } else {
        var k :| Recovers(z, k);
        RecoversStays(z, y, k);
      }
    }
  }

  /** A task that is no recovery callback ends. */
  lemma DoneInv(z: System, k: nat, s: Stream)
    requires Inv(z) && k in z.tasks && !Recovers(z, k) && z.s.epoch <= s.epoch
    requires s.value.Some? <==> s.state.Connected?
    requires s.recovery ==> z.s.recovery || !s.state.Loading?
    requires s.state.Reconnecting? && !s.closed ==> s.recovery || (z.s.state.Reconnecting? && !z.s.closed && !z.s.recovery)
    requires s.state.Loading? ==> z.s.state.Loading?
    requires s.attempt <= ATTEMPT_CAP && s.cleaned == z.s.cleaned && s.closed == z.s.closed
    requires s.closed && s.recovery ==> z.s.recovery
    ensures Inv(Done(z, k, s))
  {
    var y := Done(z, k, s);
    forall j | Recovers(y, j)
      ensures !y.s.state.Loading?
    {
      assert Recovers(z, j);
    }
    if s.state.Reconnecting? && !s.closed && !s.recovery {
      var j :| Recovers(z, j);
      RecoversStays(z, y, j);
    }
  }

  lemma RecoveryInv(z: System, y: System, a: Action)
    requires Inv(z) && Step(z, y, a) && (a.RecoveryChecks? || a.RecoveryRefreshes? || a.RecoveryRearms?)
    ensures Inv(y)
  {
    var k := a.k;
    if k in y.tasks {
      assert Recovers(y, k);
    }
    forall j | Recovers(y, j)
      ensures !y.s.state.Loading?
    {
      assert Recovers(z, j);
    }
    assert Recovers(z, k);
  }

  lemma LandingInv(z: System, y: System, a: Action)
    requires Inv(z) && Step(z, y, a) && (a.ReadFails? || a.Lands? || a.InvalidationLands?)
    ensures Inv(y)
  {
    hide LifetimeOf, ObservedBefore;
    DoneInv(z, a.k, y.s);
  }

  lemma StepInv(z: System, y: System, a: Action)
    requires Inv(z) && Step(z, y, a)
    ensures Inv(y)
  {
    match a
    case Notify(_) => SpawnInv(z, y.s, y.tasks[z.next]);
    case ReadBegins => SpawnInv(z, y.s, y.tasks[z.next]);
    case ExpiryFires => SpawnInv(z, y.s, y.tasks[z.next]);
    case RecoveryFires => SpawnInv(z, y.s, y.tasks[z.next]);
    case ReadFails(_) => LandingInv(z, y, a);
    case Lands(_, _, _) => LandingInv(z, y, a);
    case InvalidationLands(_) => LandingInv(z, y, a);
    case CloseBegins => assert forall k :: Recovers(y, k) ==> Recovers(z, k);
    case CloseCleans => assert forall k :: Recovers(y, k) ==> Recovers(z, k);
    case _ => RecoveryInv(z, y, a);
  }

  lemma {:induction false} ReachableInv(states: seq<System>, actions: seq<Action>, n: nat)
    requires Run(states, actions) && n < |states|
    ensures Inv(states[n])
  {
    if n > 0 {
      hide Step, Inv;
      ReachableInv(states, actions, n - 1);
      StepInv(states[n - 1], states[n], actions[n - 1]);
    }
  }

  // ------------------------------------------------- epochs

  /** A notification, an observation taken, or an invalidation carried out. */
  ghost predicate Disturbs(z: System, a: Action) {
    match a
    case Notify(_) => true
    case Lands(k, v, _) => k in z.tasks && (z.tasks[k].Reading? || z.tasks[k].Pushed?) && Accepts(z.s, z.tasks[k].epoch, v)
    case InvalidationLands(k) => k in z.tasks && z.tasks[k].Invalidating? && z.s.epoch == z.tasks[k].epoch
    case _ => false
  }

  lemma EpochMoves(z: System, y: System, a: Action)
    requires Step(z, y, a)
    ensures y.s.epoch == z.s.epoch + if Disturbs(z, a) then 1 else 0
  {
  }

  /**
   * From the step that captured its epoch until it lands, an observation keeps it,
   * and the epoch is still that one iff nothing disturbed it.
   */
  lemma {:induction false} EpochHeld(states: seq<System>, actions: seq<Action>, i: nat, n: nat, k: nat)
    requires Run(states, actions) && i < n < |states| && k == states[i].next && k in states[n].tasks
    requires actions[i].ReadBegins? || actions[i].Notify?
    requires states[n].tasks[k].Reading? || states[n].tasks[k].Pushed?
    ensures states[n].tasks[k].epoch <= states[n].s.epoch
    ensures states[n].tasks[k].epoch == states[n].s.epoch <==> forall j :: i < j < n ==> !Disturbs(states[j], actions[j])
  {
    hide Inv, Disturbs, Emit, Invalidate;
    assert Step(states[n - 1], states[n], actions[n - 1]);
    if n > i + 1 {
      NextGrows(states, actions, i, n - 1);
      EpochHeld(states, actions, i, n - 1, k);
      EpochMoves(states[n - 1], states[n], actions[n - 1]);
    }
  }

  lemma {:induction false} NextGrows(states: seq<System>, actions: seq<Action>, i: nat, n: nat)
    requires Run(states, actions) && i < n < |states| && (actions[i].ReadBegins? || actions[i].Notify?)
    ensures states[i].next < states[n].next
  {
    assert Step(states[n - 1], states[n], actions[n - 1]);
    if n > i + 1 { NextGrows(states, actions, i, n - 1); }
  }

  /**
   * An observation whose epoch was captured at step `i` is taken at step `n`
   * exactly when no notification, no other observation taken and no
   * invalidation came in between, and it is not older than the state held.
   */
  lemma TakenIffUndisturbed(states: seq<System>, actions: seq<Action>, i: nat, n: nat)
    requires Run(states, actions) && i < n < |actions|
    requires actions[i].ReadBegins? || actions[i].Notify?
    requires actions[n].Lands? && actions[n].k == states[i].next
    ensures states[n + 1].s != states[n].s <==>
              && (forall j :: i < j < n ==> !Disturbs(states[j], actions[j]))
              && !(states[n].s.value.Some? && ObservedBefore(actions[n].v, states[n].s.value.value))
  {
    assert Step(states[n], states[n + 1], actions[n]);
    EpochHeld(states, actions, i, n, actions[n].k);
  }

  /** What taking an observation does, and that nothing else puts a state in place. */
  lemma ValueComesFromTaken(states: seq<System>, actions: seq<Action>, n: nat)
    requires Run(states, actions) && n < |actions| && states[n + 1].s.value != states[n].s.value
    ensures Disturbs(states[n], actions[n]) && !states[n].s.closed
    ensures match actions[n]
            case Lands(_, v, now) =>
              && states[n + 1].s.value == Some(v) && !LifetimeOf(v, now).Expired?
              && !states[n + 1].s.recovery && states[n + 1].s.attempt == 0
            case InvalidationLands(_) => states[n + 1].s.value.None? && states[n + 1].s.recovery
            case _ => false
  {
    assert Step(states[n], states[n + 1], actions[n]);
  }

  /**
   * What landing does: refused, nothing; taken but expired, only an expiry is
   * armed for its own epoch; taken by an open stream, it is the state held,
   * the stream is connected, recovery is off, and an expiry is armed exactly
   * when the observation has a deadline.
   */
  lemma LandingTakesEffect(z: System, y: System, k: nat, v: ExchangeState, now: int)
    requires Step(z, y, Lands(k, v, now))
    ensures var s, t := z.s, y.s;
            if z.tasks[k].epoch != s.epoch || (s.value.Some? && ObservedBefore(v, s.value.value)) then t == s
            else
              && t.epoch == s.epoch + 1
              && (LifetimeOf(v, now).Expired? ==> t == s.(epoch := t.epoch, expiry := Some(t.epoch)))
              && (!LifetimeOf(v, now).Expired? ==>
                    && !t.recovery && t.attempt == 0
                    && t.expiry == (if LifetimeOf(v, now).Unlimited? then None else Some(t.epoch))
                    && (s.closed ==> t.value == s.value && t.state == s.state)
                    && (!s.closed ==> t.value == Some(v) && t.state == Connected))
  {
    hide LifetimeOf, ObservedBefore;
  }

  /**
   * What an invalidation does: past its epoch, nothing; otherwise an open stream
   * holds nothing, reconnects and arms recovery.
   */
  lemma InvalidationTakesEffect(z: System, y: System, k: nat)
    requires Step(z, y, InvalidationLands(k))
    ensures var s, t := z.s, y.s;
            if z.tasks[k].epoch != s.epoch then t == s
            else
              && t.epoch == s.epoch + 1 && t.expiry == None
              && (!s.closed ==> t.value == None && t.state == Reconnecting && t.recovery)
              && (s.closed ==> t.value == s.value && t.recovery == s.recovery)
  {
  }

  /** What a recovery callback does at its end: re-arms an open stream that still holds nothing, counting up to ten. */
  lemma RearmingTakesEffect(z: System, y: System, k: nat)
    requires Step(z, y, RecoveryRearms(k))
    ensures if z.s.value == None && !z.s.closed
            then y.s == z.s.(recovery := true, attempt := if z.s.attempt < 10 then z.s.attempt + 1 else z.s.attempt)
            else y.s == z.s
  {
  }

  // ------------------------------------------------- observation times

  ghost predicate Invalidates(z: System, a: Action) { a.InvalidationLands? && Disturbs(z, a) }

  /** Between two invalidations, while the states held are stamped, observation times never decrease. */
  lemma {:induction false} TimesNeverDecrease(states: seq<System>, actions: seq<Action>, i: nat, n: nat)
    requires Run(states, actions) && i <= n < |states|
    requires forall j :: i <= j < n ==> !Invalidates(states[j], actions[j])
    requires states[i].s.value.Some?
    ensures states[n].s.value.Some?
    ensures (forall j :: i <= j <= n && states[j].s.value.Some? ==> Stamped(states[j].s.value.value)) ==>
              ObservationTime(states[i].s.value.value) <= ObservationTime(states[n].s.value.value)
  {
    if i < n {
      hide Step, ObservationTime;
      TimesNeverDecrease(states, actions, i, n - 1);
      TimeStep(states[n - 1], states[n], actions[n - 1]);
      ObservedBeforeOrders(states[i].s.value.value, states[n - 1].s.value.value, states[n].s.value.value);
    }
  }

  lemma TimeStep(z: System, y: System, a: Action)
    requires Step(z, y, a) && !Invalidates(z, a) && z.s.value.Some?
    ensures y.s.value.Some? && !ObservedBefore(y.s.value.value, z.s.value.value)
  {
    hide ObservationTime, LifetimeOf;
  }

  /** Some observation older than `held` could be taken and put in place, were it to land now. */
  ghost predicate OlderCanLand(s: Stream, held: ExchangeState) {
    exists v, now :: Accepts(s, s.epoch, v) && !LifetimeOf(v, now).Expired? && ObservedBefore(v, held)
  }

  /**
   * The exact condition: after stamped states only, an observation older than
   * one of them can land if and only if the state held now is unstamped.
   */
  lemma OlderLandsIffUnstamped(states: seq<System>, actions: seq<Action>, i: nat, n: nat)
    requires Run(states, actions) && i <= n < |states|
    requires forall j :: i <= j < n ==> !Invalidates(states[j], actions[j])
    requires states[i].s.value.Some? && Stamped(states[i].s.value.value)
    requires forall j :: i <= j < n && states[j].s.value.Some? ==> Stamped(states[j].s.value.value)
    ensures states[n].s.value.Some?
    ensures OlderCanLand(states[n].s, states[i].s.value.value) <==> !Stamped(states[n].s.value.value)
  {
    hide Run;
    TimesNeverDecrease(states, actions, i, n);
    var s, held := states[n].s, states[i].s.value.value;
    var time := ObservationTime(held);
    var v := ExchangeState(0, At(if time == 1 then -1 else time - 1), None);
    assert ObservedBefore(v, held) && LifetimeOf(v, 0).Unlimited?;
    if !Stamped(s.value.value) {
      assert Accepts(s, s.epoch, v);
    }
  }

  /** One unstamped state in between is enough to let an older one back in. */
  lemma UnstampedLetsOlderIn(z: System, now: int)
    requires z.s == Stream(0, Loading, None, None, false, 0, false, false) && z.tasks == map[]
    ensures exists states: seq<System>, actions: seq<Action> ::
              && Run(states, actions) && |actions| == 6 && states[0] == z
              && (forall j :: 0 <= j < 6 ==> !Invalidates(states[j], actions[j]))
              && states[2].s.value.Some? && states[6].s.value.Some?
              && ObservedBefore(states[6].s.value.value, states[2].s.value.value)
  {
    var late := ExchangeState(0, At(2), None);
    var bare := ExchangeState(1, Absent, None);
    var early := ExchangeState(2, At(1), None);
    var k := z.next;
    var z1 := Spawn(z, z.s, Reading(0));
    var s2 := Stream(1, Connected, Some(late), None, false, 0, false, false);
    var z2 := System(s2, map[], k + 1);
    var z3 := Spawn(z2, s2, Reading(1));
    var z4 := System(s2.(epoch := 2, value := Some(bare)), map[], k + 2);
    var z5 := Spawn(z4, z4.s, Reading(2));
    var z6 := System(s2.(epoch := 3, value := Some(early)), map[], k + 3);
    var states := [z, z1, z2, z3, z4, z5, z6];
    var actions := [ReadBegins, Lands(k, late, now), ReadBegins, Lands(k + 1, bare, now), ReadBegins, Lands(k + 2, early, now)];
    assert z1.tasks - {k} == map[] && z3.tasks - {k + 1} == map[] && z5.tasks - {k + 2} == map[];
    assert Step(z, z1, actions[0]) && Step(z1, z2, actions[1]);
    assert Step(z2, z3, actions[2]) && Step(z3, z4, actions[3]);
    assert Step(z4, z5, actions[4]) && Step(z5, z6, actions[5]);
    hide Step;
    assert Run(states, actions);
  }

  // ------------------------------------------------- recovery

  /**
   * From an invalidation until a state is put in place or the stream closes, a
   * recovery read is armed or its callback is under way, with a delay between
   * one and thirty seconds; once Close has cleaned up, none is ever armed.
   */
  lemma RecoveryAlwaysPending(states: seq<System>, actions: seq<Action>, i: nat, n: nat)
    requires Run(states, actions) && i < n < |states|
    requires Invalidates(states[i], actions[i]) && !states[n].s.closed
    requires forall j :: i < j <= n ==> states[j].s.value.None?
    ensures states[n].s.recovery || exists k :: Recovers(states[n], k)
    ensures SECOND <= RecoveryDelay(states[n].s.attempt) <= RECOVERY_MAX
  {
    StaysReconnecting(states, actions, i, n);
    ReachableInv(states, actions, n);
    DelayDoublesToCap(states[n].s.attempt);
  }

  lemma {:induction false} StaysReconnecting(states: seq<System>, actions: seq<Action>, i: nat, n: nat)
    requires Run(states, actions) && i < n < |states|
    requires Invalidates(states[i], actions[i]) && !states[n].s.closed
    requires forall j :: i < j <= n ==> states[j].s.value.None?
    ensures states[n].s.state.Reconnecting?
  {
    assert Step(states[n - 1], states[n], actions[n - 1]);
    if n > i + 1 {
      StaysReconnecting(states, actions, i, n - 1);
    }
  }

  lemma {:induction false} NoneArmedAfterClose(states: seq<System>, actions: seq<Action>, i: nat, n: nat)
    requires Run(states, actions) && i < n < |states| && actions[i].CloseCleans?
    ensures states[n].s.closed && states[n].s.cleaned && !states[n].s.recovery
  {
    ReachableInv(states, actions, n);
    assert Step(states[n - 1], states[n], actions[n - 1]);
    if n > i + 1 { NoneArmedAfterClose(states, actions, i, n - 1); }
  }
}
