/**
 * Connection ownership and hot hand-off in websocket.go: generations, serving
 * loops, a warming connection, promotion, abort, reconnect and disconnect. An
 * atomic step is one region under the manager's lock, together with the
 * goroutine it starts or ends.
 */
module Connection {
  import opened Text

  datatype Status = Connecting | Connected | Disconnected

  const PROMOTE_MAX_ATTEMPTS := 20

  /** The manager's fields. Connections and hand-offs are named by fresh numbers. */
  datatype Manager = Manager(
    shouldConnect: bool,
    connecting: bool,
    gen: nat,
    conn: Option<nat>,
    status: Status,
    handoff: Option<nat>,
    pending: nat)

  /** A warming connection; `armed` once the server has confirmed its subscriptions. */
  datatype Handoff = Handoff(conn: Option<nat>, newGen: nat, attempts: nat, armed: bool)

  // ------------------------------------------------- the lock regions

  /** EnsureConnected; the flag says whether a connect loop is started for the new generation. */
  function EnsureConnected(m: Manager): (Manager, bool) {
    if m.shouldConnect && (m.connecting || m.status.Connected?) then (m, false)
    else if m.connecting then (m.(shouldConnect := true), false)
    else (m.(shouldConnect := true, connecting := true, gen := m.gen + 1), true)
  }

  function Reconnect(m: Manager): (Manager, bool) {
    if !m.shouldConnect then (m, false)
    else (m.(gen := m.gen + 1, conn := None, connecting := true, handoff := None), true)
  }

  function Disconnect(m: Manager): Manager {
    m.(shouldConnect := false, connecting := false, gen := m.gen + 1, conn := None, handoff := None, status := Disconnected)
  }

  predicate Current(m: Manager, gen: nat) { m.shouldConnect && m.gen == gen }

  function ClearConnecting(m: Manager, gen: nat): Manager {
    if m.gen == gen then m.(connecting := false) else m
  }

  /** beginAttempt: dial, or leave. */
  function BeginAttempt(m: Manager, gen: nat): (Manager, bool) {
    if !Current(m, gen) then (ClearConnecting(m, gen), false) else (m.(status := Connecting), true)
  }

  /** endAttempt: reconnect, or leave. */
  function EndAttempt(m: Manager, gen: nat): (Manager, bool) {
    if !Current(m, gen) then (ClearConnecting(m, gen), false)
    else (m.(handoff := None, status := Disconnected, pending := 0), true)
  }

  /** A dialed connection is installed unless its generation has been superseded. */
  function Install(m: Manager, gen: nat, conn: nat): (Manager, bool) {
    if !Current(m, gen) then (m, false) else (m.(conn := Some(conn)), true)
  }

  function DropConn(m: Manager, conn: nat): Manager {
    if m.conn == Some(conn) then m.(conn := None) else m
  }

  function OnAuthenticated(m: Manager): Manager { m.(status := Connected) }

  /** RotateConnection: begin a hand-off, if there is a healthy connection to hand off from. */
  function RotateConnection(m: Manager, h: nat): (Manager, bool) {
    if !m.shouldConnect || m.handoff.Some? || !m.status.Connected? || m.conn.None? then (m, false)
    else (m.(handoff := Some(h)), true)
  }

  /** promoteHandoff: nothing, one more wait for pending replies, or the swap. */
  function PromoteHandoff(m: Manager, id: nat, h: Handoff): (Manager, Handoff) {
    if m.handoff != Some(id) || h.conn.None? then (m, h)
    else if m.pending > 0 && h.attempts < PROMOTE_MAX_ATTEMPTS then (m, h.(attempts := h.attempts + 1))
    else (m.(conn := h.conn, gen := m.gen + 1, connecting := true, handoff := None), h.(newGen := m.gen + 1))
  }

  function AbortHandoffIf(m: Manager, id: nat): Manager {
    if m.handoff == Some(id) then m.(handoff := None) else m
  }

  // ------------------------------------------------- goroutines

  /** Where a serving goroutine is: the first five are connectLoop, the rest serveHandoff. */
  datatype Loop =
    | Starting(gen: nat)
    | Dialing(gen: nat)
    | Serving(gen: nat, conn: nat)
    | Handling(gen: nat, conn: nat)
    | Lost(gen: nat)
    | WarmDialing(gen: nat, h: nat)
    | WarmAuth(h: nat, conn: nat)
    | WarmReading(h: nat, conn: nat)
    | WarmHandling(h: nat, conn: nat)
    | WarmServing(h: nat, conn: nat)
    | WarmDropped(gen: nat, conn: nat)
    | WarmFailed(h: nat)

  predicate Warm(l: Loop) {
    l.WarmDialing? || l.WarmAuth? || l.WarmReading? || l.WarmHandling? || l.WarmServing? || l.WarmFailed?
  }

  /**
   * The system. A hand-off has the number of the loop that serves it. `owners` records
   * which loop each generation was issued to,
   * `serves` under which generation a connection was made the primary one, and
   * `warms` which hand-off dialed a connection.
   */
  datatype System = System(
    m: Manager,
    hs: map<nat, Handoff>,
    loops: map<nat, Loop>,
    nextLoop: nat,
    nextConn: nat,
    owners: map<nat, nat>,
    serves: map<nat, nat>,
    warms: map<nat, nat>)

  /** The generation a loop owns; zero when it owns none. */
  function Owns(s: System, l: Loop): nat {
    if l.Starting? || l.Dialing? || l.Serving? || l.Handling? || l.Lost? || l.WarmDropped? then l.gen
    else if l.WarmFailed? then 0
    else if l.h in s.hs then s.hs[l.h].newGen
    else 0
  }

  datatype Action =
    | Ensure
    | ForceReconnect
    | ForceDisconnect
    | Rotate
    | Timeout(h: nat)
    | PromoteTimer(h: nat)
    | PendingChange(n: nat)
    | AttemptBegins(k: nat)
    | DialFails(k: nat)
    | DialSucceeds(k: nat)
    | AuthWriteFails(k: nat)
    | ReadFails(k: nat)
    | ReadSucceeds(k: nat)
    | Handled(k: nat, authenticated: bool)
    | AttemptEnds(k: nat)
    | Pong(k: nat)
    | WarmRefused(k: nat)
    | WarmReadFailureSeen(k: nat)
    | WarmFailureAborts(k: nat)

  ghost predicate Init(s: System) {
    && s.m == Manager(false, false, 0, None, Disconnected, None, 0)
    && s.hs == map[] && s.loops == map[] && s.owners == map[] && s.serves == map[] && s.warms == map[]
  }

  /** A connect loop started for the generation just issued. */
  function Spawn(s: System, m: Manager): System {
    s.(m := m,
       loops := s.loops[s.nextLoop := Starting(m.gen)],
       owners := s.owners[m.gen := s.nextLoop],
       nextLoop := s.nextLoop + 1)
  }

  function Exit(s: System, k: nat, m: Manager): System { s.(m := m, loops := s.loops - {k}) }

  function Goto(s: System, k: nat, m: Manager, l: Loop): System { s.(m := m, loops := s.loops[k := l]) }

  /** Promotion seen from the whole system: the warming loop becomes the owner of the new generation. */
  function Promote(s: System, id: nat): System
    requires id in s.hs
  {
    var h := s.hs[id];
    var (m, h') := PromoteHandoff(s.m, id, h);
    if m.gen == s.m.gen || h.conn.None? then s.(m := m, hs := s.hs[id := h'])
    else s.(m := m, hs := s.hs[id := h'], owners := s.owners[m.gen := id], serves := s.serves[h.conn.value := m.gen])
  }

  /** Calls from outside and timers. */
  ghost predicate OuterStep(s: System, t: System, a: Action) {
    match a
    case Ensure => var (m, go) := EnsureConnected(s.m); t == if go then Spawn(s, m) else s.(m := m)
    case ForceReconnect => var (m, go) := Reconnect(s.m); t == if go then Spawn(s, m) else s.(m := m)
    case ForceDisconnect => t == s.(m := Disconnect(s.m))
    case Rotate =>
      var h := s.nextLoop;
      var (m, go) := RotateConnection(s.m, h);
      t == if go then s.(m := m, hs := s.hs[h := Handoff(None, 0, 0, false)],
                         loops := s.loops[h := WarmDialing(s.m.gen, h)], nextLoop := s.nextLoop + 1)
           else s
    case Timeout(h) => t == s.(m := AbortHandoffIf(s.m, h))
    case PromoteTimer(h) => h in s.hs && s.hs[h].armed && t == Promote(s, h)
    case PendingChange(n) => t == s.(m := s.m.(pending := n))
    case _ => false
  }

  /** Steps of a connect loop. */
  ghost predicate ConnectStep(s: System, t: System, k: nat, l: Loop, a: Action) {
    match a
    case AttemptBegins(_) =>
      l.Starting? && var (m, go) := BeginAttempt(s.m, l.gen); t == if go then Goto(s, k, m, Dialing(l.gen)) else Exit(s, k, m)
    case DialFails(_) => l.Dialing? && t == Goto(s, k, s.m, Lost(l.gen))
    case DialSucceeds(_) =>
      && l.Dialing?
      && var (m, ok) := Install(s.m, l.gen, s.nextConn);
         t == if ok then Goto(s, k, m, Serving(l.gen, s.nextConn)).(
                           nextConn := s.nextConn + 1,
                           serves := s.serves[s.nextConn := l.gen])
              else Goto(s, k, m, Lost(l.gen))
    case AuthWriteFails(_) => l.Serving? && t == Goto(s, k, s.m, Lost(l.gen))
    case ReadFails(_) => l.Serving? && t == Goto(s, k, DropConn(s.m, l.conn), Lost(l.gen))
    case ReadSucceeds(_) =>
      && l.Serving?
      && var current := s.m.gen == l.gen && s.m.conn == Some(l.conn);
         t == Goto(s, k, s.m, if current then Handling(l.gen, l.conn) else Lost(l.gen))
    case Handled(_, auth) => l.Handling? && t == Goto(s, k, if auth then OnAuthenticated(s.m) else s.m, Serving(l.gen, l.conn))
    case AttemptEnds(_) =>
      l.Lost? && var (m, go) := EndAttempt(s.m, l.gen); t == if go then Goto(s, k, m, Starting(l.gen)) else Exit(s, k, m)
    case _ => false
  }

  /** Steps of a warming loop, before and after it takes over. */
  ghost predicate WarmStep(s: System, t: System, k: nat, l: Loop, a: Action) {
    match a
    case DialFails(_) => l.WarmDialing? && t == Exit(s, k, AbortHandoffIf(s.m, l.h))
    case DialSucceeds(_) =>
      && l.WarmDialing? && l.h in s.hs
      && t == if s.m.handoff != Some(l.h) || !Current(s.m, l.gen) then Exit(s, k, s.m)
              else Goto(s, k, s.m, WarmAuth(l.h, s.nextConn)).(
                     nextConn := s.nextConn + 1,
                     hs := s.hs[l.h := s.hs[l.h].(conn := Some(s.nextConn))],
                     warms := s.warms[s.nextConn := l.h])
    case AuthWriteFails(_) => l.WarmAuth? && t == Exit(s, k, AbortHandoffIf(s.m, l.h))
    case Handled(_, auth) =>
      if l.WarmServing? then t == Goto(s, k, if auth then OnAuthenticated(s.m) else s.m, WarmReading(l.h, l.conn))
      else (l.WarmAuth? || l.WarmHandling?) && t == Goto(s, k, s.m, WarmReading(l.h, l.conn))
    case Pong(_) =>
      && l.WarmHandling? && l.h in s.hs
      && t == Goto(Promote(s.(hs := s.hs[l.h := s.hs[l.h].(armed := true)]), l.h), k,
                   Promote(s.(hs := s.hs[l.h := s.hs[l.h].(armed := true)]), l.h).m, WarmReading(l.h, l.conn))
    case WarmRefused(_) => l.WarmHandling? && t == Goto(s, k, AbortHandoffIf(s.m, l.h), WarmReading(l.h, l.conn))
    case ReadSucceeds(_) =>
      && l.WarmReading?
      && t == if s.m.conn == Some(l.conn) then Goto(s, k, s.m, WarmServing(l.h, l.conn))
              else if s.m.handoff != Some(l.h) then Exit(s, k, s.m)
              else Goto(s, k, s.m, WarmHandling(l.h, l.conn))
    case ReadFails(_) =>
      if l.WarmDropped? then t == Goto(s, k, DropConn(s.m, l.conn), Lost(l.gen))
      else
        && l.WarmReading? && l.h in s.hs
        && t == if s.m.conn == Some(l.conn) then Goto(s, k, s.m, WarmDropped(s.hs[l.h].newGen, l.conn))
                else Exit(s, k, AbortHandoffIf(s.m, l.h))
    case WarmReadFailureSeen(_) => l.WarmReading? && s.m.conn != Some(l.conn) && t == Goto(s, k, s.m, WarmFailed(l.h))
    case WarmFailureAborts(_) => l.WarmFailed? && t == Exit(s, k, AbortHandoffIf(s.m, l.h))
    case _ => false
  }

  /** The loop an action belongs to. */
  function LoopOf(a: Action): Option<nat> {
    match a
    case AttemptBegins(k) => Some(k)
    case DialFails(k) => Some(k)
    case DialSucceeds(k) => Some(k)
    case AuthWriteFails(k) => Some(k)
    case ReadFails(k) => Some(k)
    case ReadSucceeds(k) => Some(k)
    case Handled(k, _) => Some(k)
    case AttemptEnds(k) => Some(k)
    case Pong(k) => Some(k)
    case WarmRefused(k) => Some(k)
    case WarmReadFailureSeen(k) => Some(k)
    case WarmFailureAborts(k) => Some(k)
    case _ => None
  }

  ghost predicate Step(s: System, t: System, a: Action) {
    match LoopOf(a)
    case None => OuterStep(s, t, a)
    case Some(k) => k in s.loops && (ConnectStep(s, t, k, s.loops[k], a) || WarmStep(s, t, k, s.loops[k], a))
  }

  ghost predicate Run(states: seq<System>, actions: seq<Action>) {
    && |states| == |actions| + 1
    && Init(states[0])
    && forall k :: 0 <= k < |actions| ==> Step(states[k], states[k + 1], actions[k])
  }

  // ------------------------------------------------- at most one owner

  ghost predicate LoopSound(s: System, k: nat, l: Loop) {
    && k < s.nextLoop
    && (Warm(l) ==> l.h == k && k in s.hs)
    && (l.Serving? || l.Handling? || l.WarmDropped? ==> l.conn in s.serves && s.serves[l.conn] == l.gen)
    && (l.WarmAuth? || l.WarmReading? || l.WarmHandling? || l.WarmServing? ==> s.hs[l.h].conn == Some(l.conn))
    && (l.WarmDialing? ==> s.hs[l.h].conn.None?)
    && (l.WarmDialing? || l.WarmAuth? ==> s.hs[l.h].newGen == 0 && !s.hs[l.h].armed)
    && (!Warm(l) ==> l.gen > 0)
    && (l.WarmDialing? && s.m.handoff == Some(k) ==> l.gen == s.m.gen)
    && ((l.WarmReading? || l.WarmHandling? || l.WarmServing?) && s.hs[l.h].newGen > 0 && Current(s.m, s.hs[l.h].newGen) ==>
          s.m.conn == Some(l.conn))
    && (Owns(s, l) > 0 ==> Owns(s, l) in s.owners && s.owners[Owns(s, l)] == k)
  }

  ghost predicate HandoffSound(s: System, id: nat, h: Handoff) {
    && id < s.nextLoop
    && h.newGen <= s.m.gen
    && (h.newGen > 0 ==> h.conn.Some? && h.newGen in s.owners && s.owners[h.newGen] == id)
    && (h.conn.Some? ==>
          && h.conn.value < s.nextConn && h.conn.value in s.warms && s.warms[h.conn.value] == id
          && (h.conn.value in s.serves <==> h.newGen > 0)
          && (h.newGen > 0 ==> s.serves[h.conn.value] == h.newGen))
  }

  ghost predicate Sound(s: System) {
    && s.m.shouldConnect == s.m.connecting
    && (!s.m.shouldConnect ==> s.m.conn.None?)
    && (forall k :: k in s.loops ==> LoopSound(s, k, s.loops[k]))
    && (forall id :: id in s.hs ==> HandoffSound(s, id, s.hs[id]))
    && (forall g :: g in s.owners ==> 0 < g <= s.m.gen)
    && (forall c :: c in s.serves ==> c < s.nextConn && 0 < s.serves[c] <= s.m.gen)
    && (forall c :: c in s.warms ==> c < s.nextConn)
    && (s.m.conn.Some? ==> s.m.conn.value in s.serves && s.serves[s.m.conn.value] == s.m.gen)
    && (s.m.handoff.Some? ==> s.m.shouldConnect && s.m.handoff.value in s.hs && s.hs[s.m.handoff.value].newGen == 0)
  }

  // ------------------------------------------------- an owner while one is wanted

  ghost predicate Alive(s: System) {
    && (s.m.shouldConnect ==>
          s.m.gen in s.owners && s.owners[s.m.gen] in s.loops && Owns(s, s.loops[s.owners[s.m.gen]]) == s.m.gen)
    && (s.m.handoff.Some? ==>
          && s.m.handoff.value in s.loops
          && Warm(s.loops[s.m.handoff.value]))
  }

  /** The promotion of `id` goes through: it is the current hand-off, connected, and no reply is awaited any longer. */
  predicate Swaps(s: System, id: nat) {
    && s.m.handoff == Some(id) && id in s.hs && s.hs[id].conn.Some?
    && (s.m.pending == 0 || s.hs[id].attempts >= PROMOTE_MAX_ATTEMPTS)
  }

  /** The promotion timer fires on a connection whose read has already failed. */
  predicate PromotesDead(s: System, a: Action) {
    a.PromoteTimer? && Swaps(s, a.h) && a.h in s.loops && s.loops[a.h].WarmFailed?
  }

  lemma InitSound(s: System)
    requires Init(s)
    ensures Sound(s) && Alive(s)
  {
  }

  lemma SpawnSound(s: System, m: Manager)
    requires Sound(s) && m.gen == s.m.gen + 1 && m.shouldConnect && m.connecting && m.conn.None? && m.handoff.None?
    ensures Sound(Spawn(s, m)) && Alive(Spawn(s, m))
  {
    var t := Spawn(s, m);
    forall k | k in t.loops
      ensures LoopSound(t, k, t.loops[k])
    {
      if k != s.nextLoop {
        assert LoopSound(s, k, s.loops[k]);
      }
    }
    forall id | id in t.hs
      ensures HandoffSound(t, id, t.hs[id])
    {
      assert HandoffSound(s, id, s.hs[id]);
    }
  }

  /** The swap: a hand-off in progress whose connection is up takes over under a fresh generation. */
  function Swap(s: System, id: nat, conn: nat): System
    requires id in s.hs
  {
    var g := s.m.gen + 1;
    s.(m := s.m.(conn := Some(conn), gen := g, connecting := true, handoff := None),
       hs := s.hs[id := s.hs[id].(newGen := g)],
       owners := s.owners[g := id],
       serves := s.serves[conn := g])
  }

  lemma PromoteCases(s: System, id: nat)
    requires id in s.hs
    ensures Promote(s, id) == if s.m.handoff != Some(id) || s.hs[id].conn.None? then s
                              else if Swaps(s, id) then Swap(s, id, s.hs[id].conn.value)
                              else s.(hs := s.hs[id := s.hs[id].(attempts := s.hs[id].attempts + 1)])
  {
    assert s.hs[id := s.hs[id]] == s.hs;
  }

  lemma SwapSound(s: System, id: nat, conn: nat)
    requires Sound(s) && s.m.handoff == Some(id) && id in s.hs && s.hs[id].conn == Some(conn) && s.hs[id].armed
    ensures Sound(Swap(s, id, conn))
  {
    var t := Swap(s, id, conn);
    assert HandoffSound(s, id, s.hs[id]);
    forall k | k in t.loops
      ensures LoopSound(t, k, t.loops[k])
    {
      SwapLoop(s, id, conn, k);
    }
    forall j | j in t.hs
      ensures HandoffSound(t, j, t.hs[j])
    {
      assert HandoffSound(s, j, s.hs[j]);
    }
  }

  lemma SwapLoop(s: System, id: nat, conn: nat, k: nat)
    requires Sound(s) && s.m.handoff == Some(id) && id in s.hs && s.hs[id].conn == Some(conn) && s.hs[id].armed && k in s.loops
    ensures LoopSound(Swap(s, id, conn), k, s.loops[k])
  {
  }

  lemma SwapAlive(s: System, id: nat, conn: nat)
    requires Sound(s) && Alive(s) && s.m.handoff == Some(id) && id in s.hs && s.hs[id].conn == Some(conn) && s.hs[id].armed
    ensures Alive(Swap(s, id, conn)) <==> !s.loops[id].WarmFailed?
  {
    assert LoopSound(s, id, s.loops[id]);
  }

  lemma AttemptSound(s: System, id: nat)
    requires Sound(s) && id in s.hs
    ensures var t := s.(hs := s.hs[id := s.hs[id].(attempts := s.hs[id].attempts + 1)]);
            Sound(t) && (Alive(s) ==> Alive(t))
  {
    var t := s.(hs := s.hs[id := s.hs[id].(attempts := s.hs[id].attempts + 1)]);
    SameLoops(s, t);
  }

  /** Sound carries over when only the manager or a hand-off's counters move and generations do not. */
  lemma SameLoops(s: System, t: System)
    requires Sound(s)
    requires t.loops == s.loops && t.owners == s.owners && t.serves == s.serves && t.warms == s.warms
    requires t.nextLoop == s.nextLoop && t.nextConn == s.nextConn && t.hs.Keys == s.hs.Keys && s.m.gen <= t.m.gen
    requires t.m.shouldConnect ==> s.m.shouldConnect && t.m.gen == s.m.gen && t.m.conn == s.m.conn
    requires t.m.handoff == s.m.handoff || t.m.handoff.None?
    requires t.m.handoff.Some? ==> t.m.gen == s.m.gen
    requires forall j :: j in s.hs ==> t.hs[j] == s.hs[j].(attempts := t.hs[j].attempts)
    ensures forall k :: k in t.loops ==> LoopSound(t, k, t.loops[k]) && Owns(t, t.loops[k]) == Owns(s, s.loops[k])
    ensures forall j :: j in t.hs ==> HandoffSound(t, j, t.hs[j])
  {
  }

  lemma PromoteSound(s: System, id: nat)
    requires Sound(s) && id in s.hs && s.hs[id].armed
    ensures Sound(Promote(s, id))
    ensures Alive(s) ==> (Alive(Promote(s, id)) <==> !PromotesDead(s, PromoteTimer(id)))
  {
    hide Sound, Alive, Swap, Promote;
    PromoteCases(s, id);
    if s.m.handoff == Some(id) && s.hs[id].conn.Some? {
      var conn := s.hs[id].conn.value;
      AttemptSound(s, id);
      SwapSound(s, id, conn);
      if Alive(s) { SwapAlive(s, id, conn); }
    }
  }

  lemma OuterSound(s: System, t: System, a: Action)
    requires Sound(s) && LoopOf(a).None? && Step(s, t, a)
    ensures Sound(t) && (Alive(s) ==> (Alive(t) <==> !PromotesDead(s, a)))
  {
    match a
    case Ensure => var (m, go) := EnsureConnected(s.m); if go { SpawnSound(s, m); }
    case ForceReconnect => var (m, go) := Reconnect(s.m); if go { SpawnSound(s, m); }
    case PromoteTimer(h) => PromoteSound(s, h);
    case Rotate => RotateSound(s, t);
    case _ => SameLoops(s, t);
  }

  lemma RotateSound(s: System, t: System)
    requires Sound(s) && OuterStep(s, t, Rotate)
    ensures Sound(t) && (Alive(s) ==> Alive(t))
  {
    forall k | k in t.loops
      ensures LoopSound(t, k, t.loops[k])
    {
      if k in s.loops { assert LoopSound(s, k, s.loops[k]); }
    }
    forall j | j in t.hs
      ensures HandoffSound(t, j, t.hs[j])
    {
      if j in s.hs { assert HandoffSound(s, j, s.hs[j]); }
    }
  }

  /** What a lock region run by a loop may do to the manager without disturbing anyone else. */
  ghost predicate Quiet(s: System, m: Manager) {
    && m.gen == s.m.gen && m.shouldConnect == s.m.shouldConnect && m.connecting == s.m.connecting
    && (m.handoff == s.m.handoff || m.handoff.None?)
    && (m.conn == s.m.conn || m.conn.None?)
  }

  /** Only the owner of the current generation takes the installed connection down. */
  ghost predicate MayDrop(s: System, k: nat, m: Manager)
    requires k in s.loops
  {
    m.conn == s.m.conn || (s.m.gen > 0 && Owns(s, s.loops[k]) == s.m.gen)
  }

  lemma GotoSound(s: System, k: nat, m: Manager, l: Loop)
    requires Sound(s) && k in s.loops && Quiet(s, m) && MayDrop(s, k, m)
    requires LoopSound(Goto(s, k, m, l), k, l)
    ensures Sound(Goto(s, k, m, l))
    ensures (&& Alive(s)
             && (s.m.shouldConnect ==> Owns(s, l) == s.m.gen || Owns(s, s.loops[k]) != s.m.gen)
             && (m.handoff == Some(k) ==> Warm(l))) ==>
              Alive(Goto(s, k, m, l))
  {
    assert LoopSound(s, k, s.loops[k]);
    OthersSound(s, Goto(s, k, m, l), k);
  }

  lemma ExitSound(s: System, k: nat, m: Manager)
    requires Sound(s) && k in s.loops && Quiet(s, m) && m.conn == s.m.conn
    ensures Sound(Exit(s, k, m))
    ensures Alive(s) && m.handoff != Some(k) && (s.m.shouldConnect ==> Owns(s, s.loops[k]) != s.m.gen) ==> Alive(Exit(s, k, m))
  {
    OthersSound(s, Exit(s, k, m), k);
  }

  lemma OthersSound(s: System, t: System, k: nat)
    requires Sound(s) && t.m.gen == s.m.gen && t.m.shouldConnect == s.m.shouldConnect
    requires t.m.conn == s.m.conn || (s.m.gen in s.owners && s.owners[s.m.gen] == k)
    requires t.m.handoff == s.m.handoff || t.m.handoff.None?
    requires t == s.(m := t.m, loops := t.loops)
    requires forall j :: j != k && j in t.loops ==> j in s.loops && t.loops[j] == s.loops[j]
    ensures forall j :: j in t.loops && j != k ==> LoopSound(t, j, t.loops[j])
    ensures forall j :: j in t.hs ==> HandoffSound(t, j, t.hs[j])
    ensures forall l :: Owns(t, l) == Owns(s, l)
  {
  }

  /** A fresh connection installed as the primary one by the loop that owns the generation. */
  lemma InstallSound(s: System, k: nat)
    requires Sound(s) && k in s.loops && s.loops[k].Dialing? && Current(s.m, s.loops[k].gen)
    ensures var g := s.loops[k].gen;
            var t := Goto(s, k, s.m.(conn := Some(s.nextConn)), Serving(g, s.nextConn)).(
                       nextConn := s.nextConn + 1, serves := s.serves[s.nextConn := g]);
            Sound(t) && (Alive(s) ==> Alive(t))
  {
    var g := s.loops[k].gen;
    var t := Goto(s, k, s.m.(conn := Some(s.nextConn)), Serving(g, s.nextConn)).(
               nextConn := s.nextConn + 1, serves := s.serves[s.nextConn := g]);
    forall j | j in t.loops
      ensures LoopSound(t, j, t.loops[j])
    {
      assert LoopSound(s, j, s.loops[j]);
    }
    forall j | j in t.hs
      ensures HandoffSound(t, j, t.hs[j])
    {
      assert HandoffSound(s, j, s.hs[j]);
    }
  }

  lemma AttemptsSound(s: System, t: System, k: nat, a: Action)
    requires Sound(s) && k in s.loops && ConnectStep(s, t, k, s.loops[k], a) && (a.AttemptBegins? || a.AttemptEnds?)
    ensures Sound(t) && (Alive(s) ==> Alive(t))
  {
    var l := s.loops[k];
    assert LoopSound(s, k, l);
    NotWarming(s, k);
    hide Sound, Alive;
    var (m, go) := if a.AttemptBegins? then BeginAttempt(s.m, l.gen) else EndAttempt(s.m, l.gen);
    if go {
      GotoSound(s, k, m, if a.AttemptBegins? then Dialing(l.gen) else Starting(l.gen));
    } else {
      LeavingKeepsFlag(s, l.gen);
      ExitSound(s, k, m);
    }
  }

  lemma DialingSound(s: System, t: System, k: nat, a: Action)
    requires Sound(s) && k in s.loops && ConnectStep(s, t, k, s.loops[k], a) && a.DialSucceeds?
    ensures Sound(t) && (Alive(s) ==> Alive(t))
  {
    hide Sound, Alive;
    if Current(s.m, s.loops[k].gen) {
      InstallSound(s, k);
    } else {
      DialedLate(s, k);
    }
  }

  /** A dial that completes for a superseded generation changes nothing but its loop. */
  lemma DialedLate(s: System, k: nat)
    requires Sound(s) && k in s.loops && s.loops[k].Dialing?
    ensures var t := Goto(s, k, s.m, Lost(s.loops[k].gen)); Sound(t) && (Alive(s) ==> Alive(t))
  {
    assert LoopSound(s, k, s.loops[k]);
    NotWarming(s, k);
    hide Sound, Alive, HandoffSound;
    GotoSound(s, k, s.m, Lost(s.loops[k].gen));
  }

  /** Serving steps keep to the loop's own affairs. */
  lemma Serves(s: System, t: System, k: nat, a: Action)
    requires Sound(s) && k in s.loops && ConnectStep(s, t, k, s.loops[k], a)
    requires !a.AttemptBegins? && !a.AttemptEnds? && !a.DialSucceeds?
    ensures k in t.loops && t == Goto(s, k, t.m, t.loops[k]) && Quiet(s, t.m) && MayDrop(s, k, t.m)
    ensures Owns(s, t.loops[k]) == Owns(s, s.loops[k]) && !Warm(s.loops[k]) && t.m.handoff == s.m.handoff
    ensures LoopSound(t, k, t.loops[k])
  {
    assert LoopSound(s, k, s.loops[k]);
    hide HandoffSound;
  }

  lemma ServingSound(s: System, t: System, k: nat, a: Action)
    requires Sound(s) && k in s.loops && ConnectStep(s, t, k, s.loops[k], a)
    requires !a.AttemptBegins? && !a.AttemptEnds? && !a.DialSucceeds?
    ensures Sound(t) && (Alive(s) ==> Alive(t))
  {
    hide Sound, Alive, LoopSound, ConnectStep, Quiet, MayDrop, Owns;
    Serves(s, t, k, a);
    NotWarming(s, k);
    GotoSound(s, k, t.m, t.loops[k]);
  }

  lemma ConnectSound(s: System, t: System, k: nat, a: Action)
    requires Sound(s) && k in s.loops && ConnectStep(s, t, k, s.loops[k], a)
    ensures Sound(t) && (Alive(s) ==> Alive(t))
  {
    hide Sound, Alive, ConnectStep;
    if a.AttemptBegins? || a.AttemptEnds? {
      AttemptsSound(s, t, k, a);
    } else if a.DialSucceeds? {
      DialingSound(s, t, k, a);
    } else {
      ServingSound(s, t, k, a);
    }
  }

  /** A connect loop does not serve the hand-off in progress. */
  lemma NotWarming(s: System, k: nat)
    requires Sound(s) && k in s.loops && !Warm(s.loops[k])
    ensures Alive(s) ==> s.m.handoff != Some(k)
  {
  }

  lemma LeavingKeepsFlag(s: System, gen: nat)
    requires Sound(s) && !Current(s.m, gen)
    ensures ClearConnecting(s.m, gen) == s.m
  {
  }

  /** The warming dial completes while its hand-off is still the current one. */
  lemma WarmInstallSound(s: System, k: nat)
    requires Sound(s) && k in s.loops && s.loops[k].WarmDialing? && s.m.handoff == Some(s.loops[k].h)
    ensures k in s.hs && s.loops[k].h == k
    ensures var t := Goto(s, k, s.m, WarmAuth(k, s.nextConn)).(
                       nextConn := s.nextConn + 1,
                       hs := s.hs[k := s.hs[k].(conn := Some(s.nextConn))],
                       warms := s.warms[s.nextConn := k]);
            Sound(t) && (Alive(s) ==> Alive(t))
  {
    assert LoopSound(s, k, s.loops[k]);
    var t := Goto(s, k, s.m, WarmAuth(k, s.nextConn)).(
               nextConn := s.nextConn + 1,
               hs := s.hs[k := s.hs[k].(conn := Some(s.nextConn))],
               warms := s.warms[s.nextConn := k]);
    forall j | j in t.loops
      ensures LoopSound(t, j, t.loops[j])
    {
      assert LoopSound(s, j, s.loops[j]);
    }
    forall j | j in t.hs
      ensures HandoffSound(t, j, t.hs[j])
    {
      assert HandoffSound(s, j, s.hs[j]);
    }
  }

  /** A warming loop leaves only when it neither is the current hand-off nor owns the current generation. */
  lemma WarmLeaves(s: System, t: System, k: nat, a: Action)
    requires Sound(s) && k in s.loops && WarmStep(s, t, k, s.loops[k], a) && k !in t.loops
    ensures t.m.handoff != Some(k) && t.m == s.m.(handoff := t.m.handoff)
    ensures t.m.handoff == s.m.handoff || t.m.handoff.None?
    ensures t == Exit(s, k, t.m)
    ensures s.m.shouldConnect && s.m.gen > 0 ==> Owns(s, s.loops[k]) != s.m.gen
  {
    var l := s.loops[k];
    assert LoopSound(s, k, l);
    if Warm(l) { assert HandoffSound(s, k, s.hs[k]); }
    hide Sound, HandoffSound;
  }

  lemma WarmLeavesSound(s: System, t: System, k: nat, a: Action)
    requires Sound(s) && k in s.loops && WarmStep(s, t, k, s.loops[k], a)
    requires k !in t.loops
    ensures Sound(t) && (Alive(s) ==> Alive(t))
  {
    WarmLeaves(s, t, k, a);
    assert Alive(s) && s.m.shouldConnect ==> s.m.gen > 0;
    hide Sound, Alive, WarmStep;
    ExitSound(s, k, t.m);
  }

  lemma WarmReads(s: System, t: System, k: nat, a: Action)
    requires Sound(s) && k in s.loops && WarmStep(s, t, k, s.loops[k], a)
    requires k in t.loops && (a.ReadFails? || a.ReadSucceeds? || a.WarmReadFailureSeen?)
    ensures t == Goto(s, k, t.m, t.loops[k]) && Quiet(s, t.m) && MayDrop(s, k, t.m)
    ensures s.m.shouldConnect && s.m.gen > 0 ==> Owns(s, t.loops[k]) == s.m.gen || Owns(s, s.loops[k]) != s.m.gen
    ensures LoopSound(t, k, t.loops[k])
    ensures Alive(s) && t.m.handoff == Some(k) ==> Warm(t.loops[k])
  {
    var l := s.loops[k];
    assert LoopSound(s, k, l);
    if Warm(l) { assert HandoffSound(s, k, s.hs[k]); }
  }

  lemma WarmReadsSound(s: System, t: System, k: nat, a: Action)
    requires Sound(s) && k in s.loops && WarmStep(s, t, k, s.loops[k], a)
    requires k in t.loops && (a.ReadFails? || a.ReadSucceeds? || a.WarmReadFailureSeen?)
    ensures Sound(t) && (Alive(s) ==> Alive(t))
  {
    assert Alive(s) && s.m.shouldConnect ==> s.m.gen > 0;
    hide Sound, Alive, LoopSound, WarmStep, Quiet, MayDrop, Owns;
    WarmReads(s, t, k, a);
    GotoSound(s, k, t.m, t.loops[k]);
  }

  /** Handling one message leaves a warming loop reading again, promoted or not. */
  lemma WarmHandles(s: System, t: System, k: nat, a: Action)
    requires Sound(s) && k in s.loops && WarmStep(s, t, k, s.loops[k], a) && (a.Handled? || a.WarmRefused?)
    ensures k in t.loops && t == Goto(s, k, t.m, t.loops[k]) && t.loops[k].WarmReading?
    ensures Quiet(s, t.m) && MayDrop(s, k, t.m) && Owns(s, t.loops[k]) == Owns(s, s.loops[k])
    ensures LoopSound(t, k, t.loops[k])
  {
    assert LoopSound(s, k, s.loops[k]);
    hide Sound, HandoffSound;
  }

  lemma WarmHandlesSound(s: System, t: System, k: nat, a: Action)
    requires Sound(s) && k in s.loops && WarmStep(s, t, k, s.loops[k], a) && (a.Handled? || a.WarmRefused?)
    ensures Sound(t) && (Alive(s) ==> Alive(t))
  {
    hide Sound, Alive, LoopSound, WarmStep, Quiet, MayDrop, Owns;
    WarmHandles(s, t, k, a);
    GotoSound(s, k, t.m, t.loops[k]);
  }

  lemma PongSound(s: System, t: System, k: nat, a: Action)
    requires Sound(s) && k in s.loops && WarmStep(s, t, k, s.loops[k], a) && a.Pong?
    ensures Sound(t) && (Alive(s) ==> Alive(t))
  {
    var l := s.loops[k];
    assert LoopSound(s, k, l);
    var s1 := s.(hs := s.hs[k := s.hs[k].(armed := true)]);
    ArmedSound(s, k);
    PromoteSound(s1, k);
    PromoteKeepsLoops(s1, k);
    var s2 := Promote(s1, k);
    assert LoopSound(s2, k, l);
    assert l.WarmHandling?;
    assert LoopSound(Goto(s2, k, s2.m, WarmReading(l.h, l.conn)), k, WarmReading(l.h, l.conn));
    hide Sound, Alive, Promote;
    GotoSound(s2, k, s2.m, WarmReading(l.h, l.conn));
  }

  lemma PromoteKeepsLoops(s: System, id: nat)
    requires id in s.hs
    ensures Promote(s, id).loops == s.loops
  {
  }

  lemma ArmedSound(s: System, k: nat)
    requires Sound(s) && k in s.loops && s.loops[k].WarmHandling?
    ensures k in s.hs && Sound(s.(hs := s.hs[k := s.hs[k].(armed := true)]))
    ensures Alive(s) ==> Alive(s.(hs := s.hs[k := s.hs[k].(armed := true)]))
  {
    assert LoopSound(s, k, s.loops[k]);
    var t := s.(hs := s.hs[k := s.hs[k].(armed := true)]);
    forall j | j in t.loops
      ensures LoopSound(t, j, t.loops[j])
    {
      assert LoopSound(s, j, s.loops[j]);
    }
    forall j | j in t.hs
      ensures HandoffSound(t, j, t.hs[j])
    {
      assert HandoffSound(s, j, s.hs[j]);
    }
  }

  lemma WarmSound(s: System, t: System, k: nat, a: Action)
    requires Sound(s) && k in s.loops && WarmStep(s, t, k, s.loops[k], a)
    ensures Sound(t) && (Alive(s) ==> Alive(t))
  {
    if k !in t.loops {
      WarmLeavesSound(s, t, k, a);
    } else if a.Pong? {
      PongSound(s, t, k, a);
    } else if a.DialSucceeds? {
      assert LoopSound(s, k, s.loops[k]);
      WarmInstallSound(s, k);
    } else if a.Handled? || a.WarmRefused? {
      WarmHandlesSound(s, t, k, a);
    } else {
      WarmReadsSound(s, t, k, a);
    }
  }

  lemma StepSound(s: System, t: System, a: Action)
    requires Sound(s) && Step(s, t, a)
    ensures Sound(t) && (Alive(s) ==> (Alive(t) <==> !PromotesDead(s, a)))
  {
    hide Sound, Alive, OuterStep, ConnectStep, WarmStep;
    match LoopOf(a)
    case None => OuterSound(s, t, a);
    case Some(k) =>
      if ConnectStep(s, t, k, s.loops[k], a) {
        ConnectSound(s, t, k, a);
      } else {
        WarmSound(s, t, k, a);
      }
  }

  lemma {:induction false} ReachableSound(states: seq<System>, actions: seq<Action>, n: nat)
    requires Run(states, actions) && n < |states|
    ensures Sound(states[n])
    ensures (forall i :: 0 <= i < n ==> !PromotesDead(states[i], actions[i])) ==> Alive(states[n])
  {
    hide Sound, Alive, Init, Step;
    if n == 0 {
      InitSound(states[0]);
    } else {
      ReachableSound(states, actions, n - 1);
      StepSound(states[n - 1], states[n], actions[n - 1]);
    }
  }

  // ------------------------------------------------- the contract

  predicate HoldsConn(l: Loop) {
    || l.Serving? || l.Handling? || l.WarmAuth? || l.WarmReading? || l.WarmHandling? || l.WarmServing? || l.WarmDropped?
  }

  /**
   * Over every interleaving: no two loops own one generation, a loop holding
   * the installed connection owns the current generation, and a connection is wanted
   * exactly when the connect slot is taken.
   */
  lemma AtMostOneOwner(states: seq<System>, actions: seq<Action>, n: nat, j: nat, k: nat)
    requires Run(states, actions) && n < |states|
    requires j in states[n].loops && k in states[n].loops
    ensures var s := states[n];
            && (Owns(s, s.loops[j]) == Owns(s, s.loops[k]) > 0 ==> j == k)
            && s.m.shouldConnect == s.m.connecting
            && (HoldsConn(s.loops[j]) && s.m.conn == Some(s.loops[j].conn) ==> Owns(s, s.loops[j]) == s.m.gen)
  {
    ReachableSound(states, actions, n);
    var s := states[n];
    assert LoopSound(s, j, s.loops[j]) && LoopSound(s, k, s.loops[k]);
  }

  ghost predicate HasOwner(s: System) { exists k :: k in s.loops && Owns(s, s.loops[k]) == s.m.gen }

  /** While no promotion falls on a connection already dead, a wanted connection always has exactly one live owner. */
  lemma AlwaysAnOwner(states: seq<System>, actions: seq<Action>, n: nat)
    requires Run(states, actions) && n < |states|
    requires forall i :: 0 <= i < n ==> !PromotesDead(states[i], actions[i])
    requires states[n].m.shouldConnect
    ensures var s := states[n];
            exists k :: k in s.loops && Owns(s, s.loops[k]) == s.m.gen
                        && forall j :: j in s.loops && Owns(s, s.loops[j]) == s.m.gen ==> j == k
  {
    ReachableSound(states, actions, n);
    var s := states[n];
    var k := s.owners[s.m.gen];
    assert k in s.loops && Owns(s, s.loops[k]) == s.m.gen;
    forall j | j in s.loops && Owns(s, s.loops[j]) == s.m.gen
      ensures j == k
    {
      assert LoopSound(s, j, s.loops[j]);
    }
  }

  /**
   * And that promotion is the only way to lose the owner: up to the first one, a
   * wanted connection has an owner; right after it, none.
   */
  lemma OwnerLostIff(states: seq<System>, actions: seq<Action>, n: nat)
    requires Run(states, actions) && n < |actions|
    requires forall i :: 0 <= i < n ==> !PromotesDead(states[i], actions[i])
    requires states[n + 1].m.shouldConnect
    ensures HasOwner(states[n + 1]) <==> !PromotesDead(states[n], actions[n])
  {
    var s, t := states[n], states[n + 1];
    ReachableSound(states, actions, n);
    ReachableSound(states, actions, n + 1);
    if PromotesDead(s, actions[n]) {
      assert Step(s, t, actions[n]);
      DeadPromotion(s, t, actions[n].h);
    } else {
      AlwaysAnOwner(states, actions, n + 1);
    }
  }

  lemma DeadPromotion(s: System, t: System, h: nat)
    requires Sound(s) && Sound(t) && OuterStep(s, t, PromoteTimer(h)) && PromotesDead(s, PromoteTimer(h))
    ensures t.m.shouldConnect && !HasOwner(t)
  {
    PromoteCases(s, h);
    forall k | k in t.loops
      ensures Owns(t, t.loops[k]) != t.m.gen
    {
      assert LoopSound(t, k, t.loops[k]);
    }
  }

  // ------------------------------------------------- how a lost owner comes back

  ghost predicate Orphaned(s: System) { s.m.shouldConnect && s.m.gen > 0 && !HasOwner(s) }

  /** A promotion that goes through, by the timer or by the pong that arms it. */
  predicate SwapsNow(s: System, a: Action) {
    || (a.PromoteTimer? && Swaps(s, a.h))
    || (a.Pong? && a.k in s.loops && s.loops[a.k].WarmHandling? && Swaps(s, s.loops[a.k].h))
  }

  /** Only a reconnect, a disconnect or a promotion ends the loss; in particular EnsureConnected does nothing. */
  lemma LossStays(s: System, t: System, a: Action)
    requires Sound(s) && Orphaned(s) && Step(s, t, a) && !a.ForceReconnect? && !a.ForceDisconnect? && !SwapsNow(s, a)
    ensures Orphaned(t) && (a.Ensure? ==> t == s)
  {
    match LoopOf(a)
    case None => OuterLossStays(s, t, a);
    case Some(k) =>
      assert LoopSound(s, k, s.loops[k]);
      LoopLossStays(s, t, k, a);
  }

  lemma OuterLossStays(s: System, t: System, a: Action)
    requires Sound(s) && Orphaned(s) && OuterStep(s, t, a) && !a.ForceReconnect? && !a.ForceDisconnect? && !SwapsNow(s, a)
    ensures Orphaned(t) && (a.Ensure? ==> t == s)
  {
    if a.PromoteTimer? { PromoteCases(s, a.h); }
    SameOwners(s, t);
  }

  lemma LoopLossStays(s: System, t: System, k: nat, a: Action)
    requires Orphaned(s) && k in s.loops && LoopSound(s, k, s.loops[k])
    requires LoopOf(a) == Some(k) && Step(s, t, a) && !SwapsNow(s, a)
    ensures Orphaned(t)
  {
    if ConnectStep(s, t, k, s.loops[k], a) {
      ConnectOwns(s, t, k, a);
    } else if a.Pong? {
      PongOwns(s, t, k, a);
    } else {
      WarmOwns(s, t, k, a);
    }
    hide Orphaned, ConnectStep, WarmStep;
    OneLoopMoved(s, t, k);
  }

  /** One loop moves on or leaves; it owns what it owned, or nothing, and hand-offs keep their generations. */
  ghost predicate OneMoved(s: System, t: System, k: nat)
    requires k in s.loops
  {
    && t.m.gen == s.m.gen && t.m.shouldConnect == s.m.shouldConnect
    && t.hs.Keys == s.hs.Keys && (forall h :: h in s.hs ==> t.hs[h].newGen == s.hs[h].newGen)
    && (forall j :: j in t.loops && j != k ==> j in s.loops && t.loops[j] == s.loops[j])
    && (k in t.loops ==> Owns(t, t.loops[k]) == 0 || Owns(t, t.loops[k]) == Owns(s, s.loops[k]))
  }

  /** The two shapes most loop steps have. */
  lemma MovedOn(s: System, t: System, k: nat, l: Loop)
    requires k in s.loops && t.loops == s.loops[k := l] && t.hs == s.hs
    requires t.m.gen == s.m.gen && t.m.shouldConnect == s.m.shouldConnect
    requires Owns(s, l) == 0 || Owns(s, l) == Owns(s, s.loops[k])
    ensures OneMoved(s, t, k)
  {
  }

  lemma Left(s: System, t: System, k: nat)
    requires k in s.loops && t.loops == s.loops - {k} && t.hs == s.hs
    requires t.m.gen == s.m.gen && t.m.shouldConnect == s.m.shouldConnect
    ensures OneMoved(s, t, k)
  {
  }

  lemma ConnectOwns(s: System, t: System, k: nat, a: Action)
    requires k in s.loops && ConnectStep(s, t, k, s.loops[k], a)
    ensures OneMoved(s, t, k)
  {
    if a.AttemptBegins? || a.AttemptEnds? {
      AttemptOwns(s, t, k, a);
    } else {
      hide OneMoved, Owns;
      assert k in t.loops && t.loops == s.loops[k := t.loops[k]] && t.hs == s.hs;
      ServingOwns(s, t, k, a);
      MovedOn(s, t, k, t.loops[k]);
    }
  }

  lemma ServingOwns(s: System, t: System, k: nat, a: Action)
    requires k in s.loops && ConnectStep(s, t, k, s.loops[k], a) && !a.AttemptBegins? && !a.AttemptEnds?
    ensures k in t.loops && Owns(s, t.loops[k]) == Owns(s, s.loops[k])
  {
  }

  lemma AttemptOwns(s: System, t: System, k: nat, a: Action)
    requires k in s.loops && ConnectStep(s, t, k, s.loops[k], a) && (a.AttemptBegins? || a.AttemptEnds?)
    ensures OneMoved(s, t, k)
  {
    hide OneMoved;
    if k in t.loops {
      MovedOn(s, t, k, t.loops[k]);
    } else {
      Left(s, t, k);
    }
  }

  lemma WarmOwns(s: System, t: System, k: nat, a: Action)
    requires k in s.loops && LoopSound(s, k, s.loops[k]) && WarmStep(s, t, k, s.loops[k], a) && !a.Pong?
    ensures OneMoved(s, t, k)
  {
    if a.DialSucceeds? {
      WarmDialOwns(s, t, k);
    } else {
      hide OneMoved, LoopSound;
      if k in t.loops {
        MovedOn(s, t, k, t.loops[k]);
      } else {
        Left(s, t, k);
      }
    }
  }

  lemma WarmDialOwns(s: System, t: System, k: nat)
    requires k in s.loops && LoopSound(s, k, s.loops[k]) && WarmStep(s, t, k, s.loops[k], DialSucceeds(k))
    ensures OneMoved(s, t, k)
  {
  }

  lemma PongOwns(s: System, t: System, k: nat, a: Action)
    requires k in s.loops && LoopSound(s, k, s.loops[k]) && WarmStep(s, t, k, s.loops[k], a) && a == Pong(k) && !SwapsNow(s, a)
    ensures OneMoved(s, t, k)
  {
    PromoteCases(s.(hs := s.hs[k := s.hs[k].(armed := true)]), k);
    hide Promote, Swap;
  }

  lemma OneLoopMoved(s: System, t: System, k: nat)
    requires Orphaned(s) && k in s.loops && OneMoved(s, t, k)
    ensures Orphaned(t)
  {
    SameOwners(s, t);
  }

  lemma SameOwners(s: System, t: System)
    requires Orphaned(s) && t.m.gen == s.m.gen && t.m.shouldConnect
    requires forall k :: k in t.loops ==> Owns(t, t.loops[k]) == 0 || (k in s.loops && Owns(t, t.loops[k]) == Owns(s, s.loops[k]))
    ensures Orphaned(t)
  {
  }

  /**
   * Each of the three does end it: with a fresh owner, with nothing wanted, or
   * with the promoted loop if it is alive.
   */
  lemma LossEnds(s: System, t: System, a: Action)
    requires Sound(s) && Orphaned(s) && Step(s, t, a)
    requires a.ForceReconnect? || a.ForceDisconnect? || SwapsNow(s, a)
    ensures a.ForceReconnect? || a.Pong? ==> HasOwner(t)
    ensures a.ForceDisconnect? ==> !t.m.shouldConnect
    ensures a.PromoteTimer? && a.h in s.loops && Warm(s.loops[a.h]) && !s.loops[a.h].WarmFailed? ==> HasOwner(t)
  {
    if a.ForceReconnect? {
      assert s.nextLoop in t.loops && Owns(t, t.loops[s.nextLoop]) == t.m.gen;
    } else if a.Pong? {
      hide HasOwner;
      PongEnds(s, t, a.k);
    } else if a.PromoteTimer? && a.h in s.loops && Warm(s.loops[a.h]) && !s.loops[a.h].WarmFailed? {
      hide HasOwner;
      TimerEnds(s, t, a.h);
    }
  }

  lemma PongEnds(s: System, t: System, k: nat)
    requires Sound(s) && Step(s, t, Pong(k)) && SwapsNow(s, Pong(k))
    ensures HasOwner(t)
  {
    assert LoopSound(s, k, s.loops[k]);
    var armed := s.(hs := s.hs[k := s.hs[k].(armed := true)]);
    PromoteCases(armed, k);
    assert t.m == Swap(armed, k, armed.hs[k].conn.value).m && t.hs == Swap(armed, k, armed.hs[k].conn.value).hs;
    hide Sound, LoopSound, Step, Promote;
    assert t.loops[k].WarmReading? && t.loops[k].h == k;
    assert Owns(t, t.loops[k]) == t.m.gen;
  }

  lemma TimerEnds(s: System, t: System, h: nat)
    requires Sound(s) && OuterStep(s, t, PromoteTimer(h)) && Swaps(s, h)
    requires h in s.loops && Warm(s.loops[h]) && !s.loops[h].WarmFailed?
    ensures HasOwner(t)
  {
    assert LoopSound(s, h, s.loops[h]);
    PromoteCases(s, h);
    hide Sound, LoopSound, Promote;
    assert h in t.loops && Owns(t, t.loops[h]) == t.m.gen;
  }

  /**
   * A lost owner stays lost for as long as nobody reconnects, disconnects or
   * completes a rotation, whatever else happens.
   */
  lemma {:induction false} LossLasts(states: seq<System>, actions: seq<Action>, i: nat, n: nat)
    requires Run(states, actions) && i <= n < |states| && states[i].m.shouldConnect && !HasOwner(states[i])
    requires forall j :: i <= j < n ==>
               !actions[j].ForceReconnect? && !actions[j].ForceDisconnect? && !SwapsNow(states[j], actions[j])
    ensures states[n].m.shouldConnect && !HasOwner(states[n])
    ensures Orphaned(states[n])
  {
    hide Sound, Step, Init, SwapsNow, HasOwner;
    if i == n {
      WantedHasGeneration(states, actions, n);
    } else {
      LossLasts(states, actions, i, n - 1);
      ReachableSound(states, actions, n - 1);
      LossStays(states[n - 1], states[n], actions[n - 1]);
    }
  }

  lemma {:induction false} WantedHasGeneration(states: seq<System>, actions: seq<Action>, n: nat)
    requires Run(states, actions) && n < |states|
    ensures states[n].m.shouldConnect ==> states[n].m.gen > 0
  {
    if n > 0 {
      hide Step, Init;
      WantedHasGeneration(states, actions, n - 1);
      ReachableSound(states, actions, n - 1);
      GenerationStays(states[n - 1], states[n], actions[n - 1]);
    }
  }

  lemma GenerationStays(s: System, t: System, a: Action)
    requires Sound(s) && (s.m.shouldConnect ==> s.m.gen > 0) && Step(s, t, a)
    ensures t.m.shouldConnect ==> t.m.gen > 0
  {
    match LoopOf(a)
    case None =>
      if a.PromoteTimer? { PromoteCases(s, a.h); }
      hide Sound;
    case Some(k) =>
      assert LoopSound(s, k, s.loops[k]);
      hide Sound, ConnectStep, WarmStep;
      if ConnectStep(s, t, k, s.loops[k], a) {
        ConnectOwns(s, t, k, a);
      } else if a.Pong? {
        PongGeneration(s, t, k);
      } else {
        WarmOwns(s, t, k, a);
      }
  }

  lemma PongGeneration(s: System, t: System, k: nat)
    requires k in s.loops && LoopSound(s, k, s.loops[k]) && WarmStep(s, t, k, s.loops[k], Pong(k))
    ensures t.m.gen >= s.m.gen && t.m.shouldConnect == s.m.shouldConnect
  {
    PromoteCases(s.(hs := s.hs[k := s.hs[k].(armed := true)]), k);
    hide Promote;
  }

  /**
   * A superseded loop is harmless: whatever it does, the generation, the
   * connection wanted and installed, the connect slot and the hand-off stay as
   * they are; the only status it can still report is Connected.
   */
  lemma SupersededIsHarmless(states: seq<System>, actions: seq<Action>, n: nat)
    requires Run(states, actions) && n < |actions|
    requires var s := states[n];
             LoopOf(actions[n]).Some? && LoopOf(actions[n]).value in s.loops
             && 0 < Owns(s, s.loops[LoopOf(actions[n]).value]) != s.m.gen
    ensures var m, m' := states[n].m, states[n + 1].m;
            && m' == m.(status := m'.status, pending := m'.pending)
            && (m'.status == m.status || m'.status.Connected?)
  {
    ReachableSound(states, actions, n);
    assert Step(states[n], states[n + 1], actions[n]);
    SupersededStep(states[n], states[n + 1], LoopOf(actions[n]).value, actions[n]);
  }

  lemma SupersededStep(s: System, t: System, k: nat, a: Action)
    requires Sound(s) && Step(s, t, a) && LoopOf(a) == Some(k) && k in s.loops
    requires 0 < Owns(s, s.loops[k]) != s.m.gen
    ensures t.m == s.m || t.m == OnAuthenticated(s.m)
  {
    var l := s.loops[k];
    assert LoopSound(s, k, l);
    if Warm(l) { assert HandoffSound(s, k, s.hs[k]); }
  }

  // ------------------------------------------------- the race the code leaves open

  /** The hand-off of the run below, while it warms. */
  function Warming(armed: bool, attempts: nat): Handoff { Handoff(Some(1), 0, attempts, armed) }

  function WarmingSystem(pending: nat, h: Handoff, l: Loop): System {
    System(Manager(true, true, 1, Some(0), Connected, Some(1), pending), map[1 := h],
           map[0 := Serving(1, 0), 1 := l], 2, 2, map[1 := 0], map[0 := 1], map[1 := 1])
  }

  function ConnectingSystem(status: Status, conn: Option<nat>, l: Loop): System {
    System(Manager(true, true, 1, conn, status, None, 0), map[], map[0 := l], 1, if conn.Some? then 1 else 0,
           map[1 := 0], if conn.Some? then map[0 := 1] else map[], map[])
  }

  /** The states of the run in which the owner vanishes. */
  function Vanishing(k: nat): System
    requires k < 15
  {
    if k == 0 then System(Manager(false, false, 0, None, Disconnected, None, 0), map[], map[], 0, 0, map[], map[], map[])
    else if k == 1 then ConnectingSystem(Disconnected, None, Starting(1))
    else if k == 2 then ConnectingSystem(Connecting, None, Dialing(1))
    else if k == 3 then ConnectingSystem(Connecting, Some(0), Serving(1, 0))
    else if k == 4 then ConnectingSystem(Connecting, Some(0), Handling(1, 0))
    else if k == 5 then ConnectingSystem(Connected, Some(0), Serving(1, 0))
    else if k == 6 then
      var s := ConnectingSystem(Connected, Some(0), Serving(1, 0));
      s.(m := s.m.(handoff := Some(1)), hs := map[1 := Handoff(None, 0, 0, false)],
         loops := s.loops[1 := WarmDialing(1, 1)], nextLoop := 2)
    else if k == 7 then WarmingSystem(0, Warming(false, 0), WarmAuth(1, 1))
    else if k == 8 then WarmingSystem(0, Warming(false, 0), WarmReading(1, 1))
    else if k == 9 then WarmingSystem(0, Warming(false, 0), WarmHandling(1, 1))
    else if k == 10 then WarmingSystem(1, Warming(false, 0), WarmHandling(1, 1))
    else if k == 11 then WarmingSystem(1, Warming(true, 1), WarmReading(1, 1))
    else if k == 12 then WarmingSystem(0, Warming(true, 1), WarmReading(1, 1))
    else if k == 13 then WarmingSystem(0, Warming(true, 1), WarmFailed(1))
    else Swap(WarmingSystem(0, Warming(true, 1), WarmFailed(1)), 1, 1)
  }

  const VANISHING: seq<Action> := [
    Ensure, AttemptBegins(0), DialSucceeds(0), ReadSucceeds(0), Handled(0, true), Rotate, DialSucceeds(1),
    Handled(1, false), ReadSucceeds(1), PendingChange(1), Pong(1), PendingChange(0), WarmReadFailureSeen(1), PromoteTimer(1)]

  lemma ConnectsFirst(k: nat)
    requires k < 5
    ensures Step(Vanishing(k), Vanishing(k + 1), VANISHING[k])
  {
    hide WarmStep;
  }

  lemma ThenWarms(k: nat)
    requires 5 <= k < 9
    ensures Step(Vanishing(k), Vanishing(k + 1), VANISHING[k])
  {
    hide ConnectStep;
    assert k == 5 || k == 6 || k == 7 || k == 8;
  }

  lemma ThenWaits(k: nat)
    requires 9 <= k < 14
    ensures Step(Vanishing(k), Vanishing(k + 1), VANISHING[k])
  {
    hide ConnectStep;
    if k == 10 {
      var s := Vanishing(k);
      PromoteCases(s.(hs := s.hs[1 := s.hs[1].(armed := true)]), 1);
    } else if k == 13 {
      PromoteCases(Vanishing(k), 1);
    }
  }

  /**
   * The owner really can vanish: a promotion waits for a pending reply, the
   * warming connection fails, and the promotion timer fires before the failure
   * is turned into an abort.
   */
  lemma OwnerCanVanish()
    ensures exists states: seq<System>, actions: seq<Action> ::
              Run(states, actions) && states[|actions|].m.shouldConnect && !HasOwner(states[|actions|])
  {
    var states := seq(15, k requires 0 <= k < 15 => Vanishing(k));
    forall k | 0 <= k < 14
      ensures Step(states[k], states[k + 1], VANISHING[k])
    {
      hide Step, Vanishing;
      if k < 5 { ConnectsFirst(k); } else if k < 9 { ThenWarms(k); } else { ThenWaits(k); }
    }
    hide Step;
    assert Run(states, VANISHING);
    assert !HasOwner(Vanishing(14));
    assert states[|VANISHING|] == Vanishing(14);
  }
}
