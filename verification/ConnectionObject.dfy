/** WebSocketManager as an object: each region under its lock in place, tied to its step. */
module ConnectionObject {
  import opened Text
  import opened Connection

  class WebSocketManager {
    var shouldConnect: bool
    var connecting: bool
    var gen: nat
    var conn: Option<nat>
    var status: Status
    var handoffState: Option<nat>
    var pending: set<string>
    var handoffs: map<nat, Handoff>

    ghost function View(): Manager
      reads this
    {
      Manager(shouldConnect, connecting, gen, conn, status, handoffState, |pending|)
    }

    /** The manager's half of the ownership invariant. */
    ghost predicate Valid()
      reads this
    {
      && shouldConnect == connecting
      && (!shouldConnect ==> conn.None?)
      && (handoffState.Some? ==> shouldConnect && handoffState.value in handoffs && handoffs[handoffState.value].newGen == 0)
    }

    constructor ()
      ensures Valid()
      ensures View() == Manager(false, false, 0, None, Disconnected, None, 0) && handoffs == map[]
    {
      shouldConnect, connecting, gen, conn, status, handoffState := false, false, 0, None, Disconnected, None;
      pending, handoffs := {}, map[];
    }

    /** `loop` is the generation to start a connect loop for, if any. */
    method EnsureConnected() returns (loop: Option<nat>)
      requires Valid()
      modifies this
      ensures Valid()
      ensures View() == Connection.EnsureConnected(old(View())).0 && handoffs == old(handoffs)
      ensures loop == if Connection.EnsureConnected(old(View())).1 then Some(gen) else None
    {
      if shouldConnect && (connecting || status.Connected?) {
        return None;
      }
      shouldConnect := true;
      if connecting {
        return None;
      }
      connecting, gen := true, gen + 1;
      return Some(gen);
    }

    /** `closing` are the connections to close once the lock is released. */
    method Reconnect() returns (loop: Option<nat>, closing: seq<nat>)
      requires Valid()
      modifies this
      ensures Valid()
      ensures View() == Connection.Reconnect(old(View())).0 && handoffs == old(handoffs)
      ensures loop == if Connection.Reconnect(old(View())).1 then Some(gen) else None
      ensures old(shouldConnect) && old(conn).Some? ==> old(conn).value in closing
    {
      if !shouldConnect {
        return None, [];
      }
      gen := gen + 1;
      var retired := conn;
      conn, connecting := None, true;
      var warming := TakeHandoff();
      return Some(gen), Closing(warming) + Closing(retired);
    }

    method Disconnect() returns (closing: seq<nat>)
      requires Valid()
      modifies this
      ensures Valid()
      ensures View() == Connection.Disconnect(old(View())) && handoffs == old(handoffs)
      ensures old(conn).Some? ==> old(conn).value in closing
    {
      shouldConnect, connecting, gen := false, false, gen + 1;
      var retired := conn;
      conn := None;
      var warming := TakeHandoff();
      status := Disconnected;
      return Closing(warming) + Closing(retired);
    }

    method TakeHandoff() returns (warming: Option<nat>)
      requires handoffState.Some? ==> handoffState.value in handoffs
      modifies this
      ensures View() == old(View()).(handoff := None) && handoffs == old(handoffs)
      ensures old(handoffState).Some? ==> warming == handoffs[old(handoffState).value].conn
    {
      if handoffState.None? {
        return None;
      }
      var h := handoffState.value;
      handoffState := None;
      return handoffs[h].conn;
    }

    method BeginAttempt(g: nat) returns (dial: bool)
      requires Valid()
      modifies this
      ensures Valid()
      ensures View() == Connection.BeginAttempt(old(View()), g).0 && handoffs == old(handoffs)
      ensures dial == Connection.BeginAttempt(old(View()), g).1
    {
      if !shouldConnect || gen != g {
        ClearConnecting(g);
        return false;
      }
      status := Connecting;
      return true;
    }

    method EndAttempt(g: nat) returns (again: bool)
      requires Valid()
      modifies this
      ensures Valid()
      ensures View() == Connection.EndAttempt(old(View()), g).0 && handoffs == old(handoffs)
      ensures again == Connection.EndAttempt(old(View()), g).1
    {
      if !shouldConnect || gen != g {
        ClearConnecting(g);
        return false;
      }
      var _ := TakeHandoff();
      status, pending := Disconnected, {};
      return true;
    }

    /** A superseded or unwanted generation releases nothing that is still wanted. */
    method ClearConnecting(g: nat)
      modifies this
      ensures old(Valid()) && !Current(View(), g) ==> Valid()
      ensures View() == Connection.ClearConnecting(old(View()), g) && handoffs == old(handoffs)
    {
      if gen == g {
        connecting := false;
      }
    }

    /** dialAndServe once the dial has succeeded. */
    method Install(g: nat, dialed: nat) returns (ok: bool)
      requires Valid()
      modifies this
      ensures Valid()
      ensures View() == Connection.Install(old(View()), g, dialed).0 && handoffs == old(handoffs)
      ensures ok == Connection.Install(old(View()), g, dialed).1
    {
      if !shouldConnect || gen != g {
        return false;
      }
      conn := Some(dialed);
      return true;
    }

    method RotateConnection(h: nat) returns (begun: bool)
      requires h !in handoffs
      requires Valid()
      modifies this
      ensures Valid()
      ensures View() == Connection.RotateConnection(old(View()), h).0
      ensures begun == Connection.RotateConnection(old(View()), h).1
      ensures handoffs == if begun then old(handoffs)[h := Handoff(None, 0, 0, false)] else old(handoffs)
    {
      if !shouldConnect || handoffState.Some? || !status.Connected? || conn.None? {
        return false;
      }
      handoffState, handoffs := Some(h), handoffs[h := Handoff(None, 0, 0, false)];
      return true;
    }

    /** warmAndServe once the dial has succeeded. */
    method WarmInstall(g: nat, h: nat, dialed: nat) returns (ok: bool)
      requires h in handoffs
      requires Valid()
      modifies this
      ensures Valid()
      ensures View() == old(View())
      ensures ok <==> handoffState == Some(h) && Current(View(), g)
      ensures handoffs == if ok then old(handoffs)[h := old(handoffs)[h].(conn := Some(dialed))] else old(handoffs)
    {
      if handoffState != Some(h) || !shouldConnect || gen != g {
        return false;
      }
      handoffs := handoffs[h := handoffs[h].(conn := Some(dialed))];
      return true;
    }

    /** `retired` is the connection to close after a swap. */
    method PromoteHandoff(h: nat) returns (swapped: bool, retired: Option<nat>)
      requires h in handoffs
      requires Valid()
      modifies this
      ensures Valid()
      ensures var (m, h') := Connection.PromoteHandoff(old(View()), h, old(handoffs)[h]);
              View() == m && handoffs == old(handoffs)[h := h']
      ensures swapped <==> gen == old(gen) + 1
      ensures swapped ==> retired == old(conn) && conn == handoffs[h].conn && status == old(status)
    {
      if handoffState != Some(h) || handoffs[h].conn.None? {
        return false, None;
      }
      if |pending| > 0 && handoffs[h].attempts < PROMOTE_MAX_ATTEMPTS {
        handoffs := handoffs[h := handoffs[h].(attempts := handoffs[h].attempts + 1)];
        return false, None;
      }
      swapped, retired := true, conn;
      conn := handoffs[h].conn;
      gen := gen + 1;
      connecting := true;
      handoffs := handoffs[h := handoffs[h].(newGen := gen)];
      handoffState := None;
    }

    method AbortHandoffIf(h: nat) returns (aborted: bool)
      requires Valid()
      modifies this
      ensures Valid()
      ensures View() == Connection.AbortHandoffIf(old(View()), h) && handoffs == old(handoffs)
      ensures aborted <==> old(handoffState) == Some(h)
    {
      if handoffState != Some(h) {
        return false;
      }
      handoffState := None;
      return true;
    }

    /** A failed read takes the connection down only while it is the installed one. */
    method DropConn(c: nat)
      requires Valid()
      modifies this
      ensures Valid()
      ensures View() == Connection.DropConn(old(View()), c) && handoffs == old(handoffs)
    {
      if conn == Some(c) {
        conn := None;
      }
    }
  }

  /** An object that stands for the manager of a reachable system is valid. */
  lemma ReachableIsValid(states: seq<System>, actions: seq<Action>, n: nat, w: WebSocketManager)
    requires Run(states, actions) && n < |states| && w.View() == states[n].m && w.handoffs == states[n].hs
    ensures w.Valid()
  {
    ReachableSound(states, actions, n);
  }

  function Closing(c: Option<nat>): seq<nat> { if c.Some? then [c.value] else [] }
}
