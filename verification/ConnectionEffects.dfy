/**
 * What the lock regions of the WebSocket manager achieve, read off the states
 * before and after a step: calls take effect, a connection that went down
 * never comes back, and a hand-off begins and completes exactly when it may.
 */
module ConnectionEffects {
  import opened Text
  import opened Connection

  // ------------------------------------------------- a connection that went down

  /** A connection that served once and is not the installed one. */
  ghost predicate Retired(s: System, c: nat) { c in s.serves && s.m.conn != Some(c) }

  lemma OuterRetired(s: System, t: System, a: Action, c: nat)
    requires Sound(s) && Retired(s, c) && OuterStep(s, t, a)
    ensures Retired(t, c)
  {
    if a.PromoteTimer? {
      PromoteRetired(s, a.h, c);
    }
    hide Promote;
  }

  /** A promotion installs a connection that never served before. */
  lemma PromoteRetired(s: System, id: nat, c: nat)
    requires Sound(s) && Retired(s, c) && id in s.hs
    ensures Retired(Promote(s, id), c)
  {
    assert HandoffSound(s, id, s.hs[id]);
    PromoteCases(s, id);
    hide Promote;
  }

  lemma LoopRetired(s: System, t: System, k: nat, a: Action, c: nat)
    requires Sound(s) && Retired(s, c) && k in s.loops && LoopOf(a) == Some(k) && Step(s, t, a)
    ensures Retired(t, c)
  {
    assert c < s.nextConn;
    if a.Pong? {
      PongRetired(s, t, k, c);
    } else if ConnectStep(s, t, k, s.loops[k], a) {
      hide Sound, Promote, WarmStep, HandoffSound;
    } else {
      hide Sound, Promote, ConnectStep;
      WarmRetired(s, t, k, a, c);
    }
  }

  lemma WarmRetired(s: System, t: System, k: nat, a: Action, c: nat)
    requires Retired(s, c) && k in s.loops && WarmStep(s, t, k, s.loops[k], a) && !a.Pong?
    ensures Retired(t, c)
  {
    hide Promote;
  }

  lemma PongRetired(s: System, t: System, k: nat, c: nat)
    requires Sound(s) && Retired(s, c) && k in s.loops && WarmStep(s, t, k, s.loops[k], Pong(k))
    ensures Retired(t, c)
  {
    assert LoopSound(s, k, s.loops[k]);
    ArmedSound(s, k);
    hide Promote, Sound;
    PromoteRetired(s.(hs := s.hs[k := s.hs[k].(armed := true)]), k, c);
  }

  lemma {:induction false} StaysRetired(states: seq<System>, actions: seq<Action>, i: nat, n: nat, c: nat)
    requires Run(states, actions) && i <= n < |states| && Retired(states[i], c)
    ensures Retired(states[n], c)
  {
    hide Step, Init, Retired;
    if i < n {
      StaysRetired(states, actions, i, n - 1, c);
      ReachableSound(states, actions, n - 1);
      StepRetired(states[n - 1], states[n], actions[n - 1], c);
    }
  }

  lemma StepRetired(s: System, t: System, a: Action, c: nat)
    requires Sound(s) && Retired(s, c) && Step(s, t, a)
    ensures Retired(t, c)
  {
    match LoopOf(a)
    case None => hide Sound; OuterRetired(s, t, a, c);
    case Some(k) => LoopRetired(s, t, k, a, c);
  }

  /**
   * A failed read takes its connection down for good: in no later state is it
   * the installed one, so a rotation begins from it never again, only from a
   * connection installed since.
   */
  lemma FailedReadIsFinal(states: seq<System>, actions: seq<Action>, i: nat, n: nat)
    requires Run(states, actions) && i < n < |states| && actions[i].ReadFails? && actions[i].k in states[i].loops
    requires states[i].loops[actions[i].k].Serving? || states[i].loops[actions[i].k].WarmDropped?
    ensures var c := states[i].loops[actions[i].k].conn;
            && states[n].m.conn != Some(c)
            && (n < |actions| && actions[n].Rotate? && states[n + 1] != states[n] ==>
                  states[n].m.conn.Some? && states[n].m.conn.value != c)
  {
    ReachableSound(states, actions, i);
    var k := actions[i].k;
    assert LoopSound(states[i], k, states[i].loops[k]);
    assert Step(states[i], states[i + 1], actions[i]);
    var c := states[i].loops[k].conn;
    assert Retired(states[i + 1], c);
    StaysRetired(states, actions, i + 1, n, c);
    if n < |actions| { assert Step(states[n], states[n + 1], actions[n]); }
  }

  // ------------------------------------------------- calls

  /** EnsureConnected: a connection is wanted afterwards, and an unwanted one gets a fresh generation with its owner. */
  lemma EnsureTakesEffect(s: System, t: System)
    requires Sound(s) && Step(s, t, Ensure)
    ensures t.m.shouldConnect && t.m.connecting
    ensures if s.m.shouldConnect then t == s else t.m.gen == s.m.gen + 1 && HasOwner(t)
  {
    if !s.m.shouldConnect {
      assert s.nextLoop in t.loops && Owns(t, t.loops[s.nextLoop]) == t.m.gen;
    }
  }

  /**
   * Reconnect: nothing when no connection is wanted; otherwise everything dropped
   * and a fresh generation with its owner.
   */
  lemma ReconnectTakesEffect(s: System, t: System)
    requires Sound(s) && Step(s, t, ForceReconnect)
    ensures !s.m.shouldConnect ==> t == s
    ensures s.m.shouldConnect ==>
              && t.m.shouldConnect && t.m.gen == s.m.gen + 1 && HasOwner(t)
              && t.m.conn.None? && t.m.handoff.None? && t.m.status == s.m.status
  {
    if s.m.shouldConnect {
      assert s.nextLoop in t.loops && Owns(t, t.loops[s.nextLoop]) == t.m.gen;
    }
  }

  /** Disconnect: nothing wanted, installed or warming, reported as disconnected, and no loop current any longer. */
  lemma DisconnectTakesEffect(s: System, t: System)
    requires Sound(s) && Step(s, t, ForceDisconnect)
    ensures !t.m.shouldConnect && !t.m.connecting && t.m.conn.None? && t.m.handoff.None? && t.m.status == Disconnected
    ensures forall k :: k in t.loops ==> Owns(t, t.loops[k]) < t.m.gen
  {
    forall k | k in t.loops
      ensures Owns(t, t.loops[k]) < t.m.gen
    {
      assert LoopSound(s, k, s.loops[k]);
    }
  }

  /**
   * A rotation begins exactly from a wanted, authenticated, installed connection
   * with no other in progress, and disturbs nothing.
   */
  lemma RotateIff(s: System, t: System)
    requires Sound(s) && Step(s, t, Rotate)
    ensures t != s <==> s.m.shouldConnect && s.m.handoff.None? && s.m.status == Connected && s.m.conn.Some?
    ensures t != s ==>
              && t.m.handoff == Some(s.nextLoop) && t.m == s.m.(handoff := t.m.handoff)
              && s.nextLoop in t.loops && Warm(t.loops[s.nextLoop])
  {
  }

  /**
   * A promotion of the hand-off in progress: with nothing awaited, or after
   * twenty waits, the warmed connection is the installed one under a fresh
   * generation and the status does not move; otherwise it waits once more.
   */
  lemma PromotionTakesEffect(s: System, t: System, h: nat, c: nat)
    requires Sound(s) && Step(s, t, PromoteTimer(h)) && s.m.handoff == Some(h) && h in s.hs && s.hs[h].conn == Some(c)
    ensures if s.m.pending == 0 || s.hs[h].attempts >= 20
            then && t.m == s.m.(conn := Some(c), gen := s.m.gen + 1, handoff := None)
                 && t.hs[h].newGen == t.m.gen
            else t.m == s.m && t.hs[h].attempts == s.hs[h].attempts + 1
  {
    PromoteCases(s, h);
    hide Promote;
  }

  /** A failed or refused hand-off in progress is given up, and nothing else changes; a later one is left alone. */
  lemma TimeoutTakesEffect(s: System, t: System, h: nat)
    requires Step(s, t, Timeout(h))
    ensures t == s.(m := s.m.(handoff := if s.m.handoff == Some(h) then None else s.m.handoff))
  {
    assert s.m.(handoff := s.m.handoff) == s.m;
  }

  // ------------------------------------------------- loops

  /** The loop of the current generation reports connecting and dials; any other leaves without a trace. */
  lemma AttemptBeginsEffect(s: System, t: System, k: nat)
    requires Sound(s) && k in s.loops && Step(s, t, AttemptBegins(k))
    ensures var g := s.loops[k].gen;
            if s.m.shouldConnect && s.m.gen == g then t.m == s.m.(status := Connecting) && t.loops == s.loops[k := Dialing(g)]
            else t.m == s.m && t.loops == s.loops - {k}
  {
  }

  /**
   * A dial under the current generation installs a connection never used before;
   * under any other it installs nothing.
   */
  lemma DialEffect(s: System, t: System, k: nat)
    requires Sound(s) && k in s.loops && s.loops[k].Dialing? && Step(s, t, DialSucceeds(k))
    ensures var g := s.loops[k].gen;
            if s.m.shouldConnect && s.m.gen == g
            then exists c :: c !in s.serves && t.m == s.m.(conn := Some(c)) && t.loops == s.loops[k := Serving(g, c)]
            else t.m == s.m && t.loops == s.loops[k := Lost(g)]
  {
    assert s.nextConn !in s.serves;
  }

  /** An authenticated message on the installed connection reports connected, and nothing else about it. */
  lemma AuthenticatedEffect(s: System, t: System, k: nat, auth: bool)
    requires k in s.loops && (s.loops[k].Handling? || s.loops[k].WarmServing?) && Step(s, t, Handled(k, auth))
    ensures t.m == s.m.(status := if auth then Connected else s.m.status)
  {
  }

  /**
   * The loop of the current generation reports the loss, drops hand-off and
   * pending replies and starts over; any other leaves.
   */
  lemma AttemptEndsEffect(s: System, t: System, k: nat)
    requires Sound(s) && k in s.loops && Step(s, t, AttemptEnds(k))
    ensures var g := s.loops[k].gen;
            if s.m.shouldConnect && s.m.gen == g
            then && t.m == s.m.(status := Disconnected, pending := 0, handoff := None)
                 && t.loops == s.loops[k := Starting(g)]
            else t.m == s.m && t.loops == s.loops - {k}
  {
  }

  /** A warming connection is dispatched to the consumer only once it is the installed one. */
  lemma WarmReadEffect(s: System, t: System, k: nat)
    requires k in s.loops && s.loops[k].WarmReading? && Step(s, t, ReadSucceeds(k))
    ensures t.m == s.m
    ensures k in t.loops && t.loops[k].WarmServing? <==> s.m.conn == Some(s.loops[k].conn)
  {
  }

  /**
   * A message is handled only by the loop of the current generation on the
   * installed connection; any other loop stops reading.
   */
  lemma ServingReadEffect(s: System, t: System, k: nat)
    requires k in s.loops && s.loops[k].Serving? && Step(s, t, ReadSucceeds(k))
    ensures var l := s.loops[k];
            var current := s.m.gen == l.gen && s.m.conn == Some(l.conn);
            t.m == s.m && t.loops == s.loops[k := if current then Handling(l.gen, l.conn) else Lost(l.gen)]
  {
  }

  /**
   * A warming connection that cannot be dialed, authorized or read, or is refused,
   * gives its own hand-off up and disturbs nothing else.
   */
  lemma WarmFailureEffect(s: System, t: System, k: nat, a: Action)
    requires Sound(s) && k in s.loops && LoopOf(a) == Some(k) && Step(s, t, a)
    requires || (a.DialFails? && s.loops[k].WarmDialing?) || (a.AuthWriteFails? && s.loops[k].WarmAuth?) || a.WarmRefused?
             || (a.ReadFails? && s.loops[k].WarmReading? && s.m.conn != Some(s.loops[k].conn))
    ensures t.m == s.m.(handoff := if s.m.handoff == Some(k) then None else s.m.handoff)
    ensures !a.WarmRefused? ==> k !in t.loops
  {
    assert LoopSound(s, k, s.loops[k]);
    assert s.m.(handoff := s.m.handoff) == s.m;
    hide Sound, LoopSound, HandoffSound, Promote;
  }

  /** The reply to the barrier ping promotes at once when nothing is awaited, and otherwise starts the waiting. */
  lemma PongTakesEffect(s: System, t: System, k: nat, c: nat)
    requires Sound(s) && k in s.loops && Step(s, t, Pong(k)) && s.m.handoff == Some(k) && k in s.hs && s.hs[k].conn == Some(c)
    ensures t.hs[k].armed
    ensures if s.m.pending == 0 || s.hs[k].attempts >= 20
            then t.m == s.m.(conn := Some(c), gen := s.m.gen + 1, handoff := None) && t.hs[k].newGen == t.m.gen
            else t.m == s.m && t.hs[k].attempts == s.hs[k].attempts + 1
  {
    assert LoopSound(s, k, s.loops[k]);
    PromoteCases(s.(hs := s.hs[k := s.hs[k].(armed := true)]), k);
    hide Promote, LoopSound, HandoffSound;
  }
}
