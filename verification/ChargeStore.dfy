/**
 * The charging transactions as the code runs them: statement by statement on
 * mutable rows. Every method is proved equal to its transaction function.
 */
module ChargeStores {
  import opened Wrappers
  import opened ChargeTransactions

  class ChargeStore {
    var booking: Booking
    var attempts: seq<Attempt>

    constructor (b: Booking)
      ensures booking == b && attempts == []
    {
      booking, attempts := b, [];
    }

    function View(): Rows
      reads this
    {
      Rows(booking, attempts)
    }

    /** The locked phase of attemptScheduledCharge. */
    method DecideAndReserve(now: Time, freshToken: Token) returns (decision: Decision)
      modifies this
      ensures (View(), decision) == Decide(old(View()), now, freshToken)
    {
      if HasSucceeded(attempts) {
        return AlreadySucceeded;
      }
      if !booking.newFlow || !booking.taxConfigured {
        return Refuse;
      }
      if !booking.hasCustomer || booking.paymentMethod.None? {
        return Refuse;
      }
      if booking.graceStart.Some? && HoldAsDate(booking) <= now {
        return Refuse;
      }
      if attempts != [] {
        var id := LatestIndex(attempts);
        var latest := attempts[id];
        if latest.status == Pending || latest.status == Processing {
          if LeaseActive(latest, now) {
            return Refuse;
          }
          attempts := attempts[id := latest.(claim := Some(freshToken), lease := Some(now + EXECUTION_LEASE))];
          return Charge(id, latest.key, freshToken);
        }
        if latest.status == RequiresAction {
          return Refuse;
        }
        if latest.status == Failed && booking.nextRetry.Some? && now < booking.nextRetry.value {
          return Refuse;
        }
      }
      var number := MaxNumber(attempts) + 1;
      var key := Sha256(number);
      decision := Charge(|attempts|, key, freshToken);
      attempts := attempts + [Attempt(number, Pending, key, Some(freshToken), Some(now + EXECUTION_LEASE))];
    }

    method RecordChargeOutcome(now: Time, id: nat, token: Token, outcome: AttemptStatus) returns (recorded: bool)
      modifies this
      ensures (View(), recorded) == Record(old(View()), now, id, token, outcome)
    {
      if !(id < |attempts| && attempts[id].claim == Some(token) && attempts[id].status != Succeeded) {
        return false;
      }
      attempts := attempts[id := attempts[id].(status := outcome, claim := None, lease := None)];
      if outcome != Succeeded {
        if booking.status == PendingPayment && booking.graceStart.None? {
          booking := booking.(graceStart := Some(now), holdExpires := Some(now + GRACE_PERIOD));
        }
      }
      if outcome == Failed {
        if booking.status == PendingPayment {
          booking := booking.(nextRetry := Some(now + RETRY_DELAY));
        }
      }
      recorded := true;
    }

    /** The whole call when nothing interleaves: decide at `now`, hear `answer`, record at `later`. */
    method AttemptScheduledCharge(enabled: bool, now: Time, later: Time, freshToken: Token, answer: Answer)
      returns (attempted: bool, outcome: Option<ReportedOutcome>)
      modifies this
      ensures !enabled ==> View() == old(View()) && !attempted
      ensures enabled ==>
                var (reserved, decision) := Decide(old(View()), now, freshToken);
                (View(), attempted) ==
                if decision.Charge? then Record(reserved, later, decision.attempt, decision.token, OutcomeOf(answer))
                else (reserved, false)
      // nothing interleaved, so a worker that was told to charge always records
      ensures attempted <==> enabled && Decide(old(View()), now, freshToken).1.Charge?
      ensures outcome == if attempted then Some(Reported(answer)) else None
    {
      if !enabled {
        return false, None;
      }
      var decision := DecideAndReserve(now, freshToken);
      if !decision.Charge? {
        return false, None;
      }
      attempted := RecordChargeOutcome(later, decision.attempt, decision.token, OutcomeOf(answer));
      outcome := if attempted then Some(Reported(answer)) else None;
    }

    method OnPaymentSucceeded(id: nat)
      modifies this
      ensures View() == PaymentSucceeded(old(View()), id)
      ensures booking.status == if old(booking).status == PendingPayment then Confirmed else old(booking).status
      ensures id < |old(attempts)| && old(booking).status != Confirmed ==> attempts[id].status == Succeeded
    {
      if booking.status == Confirmed {
        return;
      }
      if id < |attempts| {
        attempts := attempts[id := attempts[id].(status := Succeeded)];
      }
      if booking.status == PendingPayment {
        booking := booking.(status := Confirmed);
      }
    }

    /** The transaction of confirmSetupIntentAndSavePaymentMethod. */
    method ConfirmAndSavePaymentMethod(confirmed: nat) returns (changed: bool)
      modifies this
      ensures View() == Rows(SavePaymentMethod(old(booking), confirmed), old(attempts))
      ensures changed <==> old(booking).paymentMethod != Some(confirmed)
    {
      changed := ChangesPaymentMethod(booking, confirmed);
      booking := booking.(paymentMethod := Some(confirmed), nextRetry := if changed then None else booking.nextRetry);
    }

    /**
     * onSetupIntentSucceeded when nothing interleaves: `priced` tells whether the booking has a
     * guest total, `confirmation` the payment method of a SetupIntent that could be confirmed.
     */
    method OnSetupIntentSucceeded(
      enabled: bool, priced: bool, confirmation: Option<nat>, now: Time, later: Time, freshToken: Token, answer: Answer)
      modifies this
      ensures !old(booking).newFlow || !priced || confirmation.None? ==> View() == old(View())
      ensures old(booking).newFlow && priced && confirmation.Some? ==>
                var saved := Rows(SavePaymentMethod(old(booking), confirmation.value), old(attempts));
                var (reserved, decision) := Decide(saved, now, freshToken);
                View() == if old(booking).checkIn >= now + 61 * DAY then Rows(ClearHold(saved.booking), saved.attempts)
                          else if !enabled then saved
                          else if decision.Charge?
                          then Record(reserved, later, decision.attempt, decision.token, OutcomeOf(answer)).0
                          else reserved
    {
      if !booking.newFlow || !priced {
        return;
      }
      if confirmation.None? {
        return;
      }
      var _ := ConfirmAndSavePaymentMethod(confirmation.value);
      var timing := DecideChargeTiming(booking.checkIn, now);
      if !timing.immediate {
        if booking.status == PendingPayment {
          booking := booking.(holdExpires := None);
        }
        return;
      }
      var _, _ := AttemptScheduledCharge(enabled, now, later, freshToken, answer);
    }

    method ReleaseExpiredHold(now: Time) returns (released: bool)
      modifies this
      ensures View() == Rows(ReleaseExpired(old(booking), now), old(attempts))
      ensures released <==> HoldExpired(old(booking), now)
    {
      if booking.status != PendingPayment || booking.holdExpires.None? {
        return false;
      }
      if now < booking.holdExpires.value {
        return false;
      }
      booking := booking.(status := Cancelled);
      released := true;
    }
  }
}
