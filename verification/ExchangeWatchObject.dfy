/** ExchangeWatchStream as an object: each region under observationMu in place, tied to its step. */
module ExchangeWatchObject {
  import opened Text
  import opened ExchangeWatch

  const CHANNEL_BUFFER := 256

  class ExchangeWatchStream {
    var observationEpoch: nat
    var state: WatchState
    var value: Option<ExchangeState>
    var expiryTimer: Option<nat>
    var recoveryTimer: bool
    var recoveryAttempt: nat
    var closed: bool
    var cleaned: bool
    var updates: seq<ExchangeState>

    ghost function View(): Stream
      reads this
    {
      Stream(observationEpoch, state, value, expiryTimer, recoveryTimer, recoveryAttempt, closed, cleaned)
    }

    /** The stream's half of the invariant, and the bound of its channel. */
    ghost predicate Valid()
      reads this
    {
      && (value.Some? <==> state.Connected?)
      && (recoveryTimer ==> !state.Loading?)
      && recoveryAttempt <= ATTEMPT_CAP
      && (cleaned ==> closed && !recoveryTimer)
      && |updates| <= CHANNEL_BUFFER
    }

    constructor ()
      ensures Valid()
      ensures View() == Stream(0, Loading, None, None, false, 0, false, false) && updates == []
    {
      observationEpoch, state, value, expiryTimer, recoveryTimer, recoveryAttempt := 0, Loading, None, None, false, 0;
      closed, cleaned, updates := false, false, [];
    }

    /** The value goes to the bounded channel too, which drops its oldest entry when full. */
    method Publish(v: ExchangeState)
      requires Valid()
      modifies this
      ensures Valid()
      ensures View() == ExchangeWatch.Publish(old(View()), v)
      ensures updates == if closed then old(updates)
                         else if |old(updates)| < CHANNEL_BUFFER then old(updates) + [v]
                         else old(updates)[1..] + [v]
    {
      if closed {
        return;
      }
      value := Some(v);
      state := Connected;
      updates := if |updates| < CHANNEL_BUFFER then updates + [v] else updates[1..] + [v];
    }

    /** `delay` is what the timer is armed with, before jitter. */
    method ScheduleRecovery() returns (delay: int)
      modifies this
      ensures old(Valid()) && !closed && !state.Loading? ==> Valid()
      ensures View() == ExchangeWatch.ScheduleRecovery(old(View())) && updates == old(updates)
      ensures delay == RecoveryDelay(old(recoveryAttempt)) && SECOND <= delay <= RECOVERY_MAX
    {
      DelayDoublesToCap(recoveryAttempt);
      delay := Wrap64(SECOND * Pow2(recoveryAttempt));
      if delay > RECOVERY_MAX || delay <= 0 {
        delay := RECOVERY_MAX;
      }
      if recoveryAttempt < ATTEMPT_CAP {
        recoveryAttempt := recoveryAttempt + 1;
      }
      recoveryTimer := true;
    }

    method ClearRecovery()
      requires Valid()
      modifies this
      ensures Valid()
      ensures View() == ExchangeWatch.ClearRecovery(old(View())) && updates == old(updates)
    {
      recoveryTimer := false;
      recoveryAttempt := 0;
    }

    method EmitExchangeObservation(epoch: nat, v: ExchangeState, now: int)
      requires Valid()
      modifies this
      ensures Valid()
      ensures View() == Emit(old(View()), epoch, v, now)
      ensures updates != old(updates) ==> Accepts(old(View()), epoch, v) && value == Some(v)
    {
      if observationEpoch != epoch {
        return;
      }
      if value.Some? && ObservedBefore(v, value.value) {
        return;
      }
      observationEpoch := observationEpoch + 1;
      expiryTimer := None;
      var life := LifetimeOf(v, now);
      if !life.Unlimited? {
        expiryTimer := Some(observationEpoch);
        if life.Expired? {
          return;
        }
      }
      ClearRecovery();
      Publish(v);
    }

    /** Clears the state held and everything still queued; nothing stale is left to read. */
    method InvalidateExchangeObservation(epoch: nat)
      requires Valid()
      modifies this
      ensures Valid()
      ensures View() == Invalidate(old(View()), epoch)
      ensures updates == if old(observationEpoch) == epoch && !closed then [] else old(updates)
    {
      if observationEpoch != epoch {
        return;
      }
      observationEpoch := observationEpoch + 1;
      expiryTimer := None;
      if closed {
        return;
      }
      value, state := None, Reconnecting;
      while updates != []
        invariant |updates| <= CHANNEL_BUFFER
        invariant View() == old(View()).(epoch := epoch + 1, expiry := None, value := None, state := Reconnecting)
        decreases |updates|
      {
        updates := updates[1..];
      }
      var _ := ScheduleRecovery();
    }
  }
}
