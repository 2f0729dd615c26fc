/**
 * One logical refund (a booking, a payment, an amount, a reason) and its retries: the local rows,
 * Stripe's refunds of the payment intent, and Stripe's memory of idempotency keys. Every statement
 * of a call may be its last.
 */
module Refunds {
  import opened Wrappers

  type RowId = nat
  type StripeId = nat

  const LIST_LIMIT: nat := 20

  datatype RowStatus = Pending | Succeeded | Failed

  /** A row of `refunds`; its identifier is its place, in order of creation. */
  datatype Row = Row(provider: Option<StripeId>, status: RowStatus)

  /**
   * `refunds` holds the payment intent's refunds, oldest first, each with its `host_refund_id` if
   * it carries one of ours. `keys` is what Stripe still remembers of the idempotency keys.
   */
  datatype State = State(rows: seq<Row>, refunds: seq<Option<RowId>>, keys: map<RowId, StripeId>)

  /** The statement after which the process stops; an error thrown by Stripe stops it there as well. */
  datatype Crash = AfterSelect | AfterInsert | AfterList | AfterCreate | AfterUpdate | Never

  // ----- the statements

  /** The most recent pending row. */
  function LatestPending(rows: seq<Row>): (latest: Option<RowId>)
    ensures latest.Some? ==> latest.value < |rows| && rows[latest.value].status == Pending
    ensures forall i | 0 <= i < |rows| && rows[i].status == Pending :: latest.Some? && i <= latest.value
  {
    if rows == [] then None
    else if rows[|rows| - 1].status == Pending then Some(|rows| - 1)
    else LatestPending(rows[..|rows| - 1])
  }

  /** The row that a call continues: the most recent pending one, if Stripe's answer is not recorded in it. */
  function Unresolved(rows: seq<Row>): (retried: Option<RowId>)
    ensures retried.Some? ==> retried.value < |rows| && rows[retried.value] == Row(None, Pending)
  {
    match LatestPending(rows)
    case None => None
    case Some(id) => if rows[id].provider.None? then Some(id) else None
  }

  /** The newest refund with this identifier among the `depth` newest. */
  function Find(refunds: seq<Option<RowId>>, id: RowId, depth: nat): (found: Option<StripeId>)
    ensures found.Some? ==> |refunds| - depth <= found.value < |refunds| && refunds[found.value] == Some(id)
    ensures found.Some? ==> forall i | found.value < i < |refunds| :: refunds[i] != Some(id)
    ensures found.None? ==> forall i | 0 <= i < |refunds| && |refunds| - depth <= i :: refunds[i] != Some(id)
  {
    if refunds == [] || depth == 0 then None
    else if refunds[|refunds| - 1] == Some(id) then Some(|refunds| - 1)
    else Find(refunds[..|refunds| - 1], id, depth - 1)
  }

  function Insert(s: State): State {
    s.(rows := s.rows + [Row(None, Pending)])
  }

  /** `refunds.create` under the row's key: a key that Stripe remembers gives the refund it gave before. */
  function Create(s: State, id: RowId): (State, StripeId) {
    if id in s.keys then (s, s.keys[id])
    else (s.(refunds := s.refunds + [Some(id)], keys := s.keys[id := |s.refunds|]), |s.refunds|)
  }

  function Update(s: State, id: RowId, refund: StripeId): State
    requires id < |s.rows|
  {
    s.(rows := s.rows[id := s.rows[id].(provider := Some(refund))])
  }

  // ----- a whole call

  /** The refund call for row `id` and the recording of its answer. */
  function CreateAndRecord(s: State, id: RowId, crash: Crash): (State, Option<StripeId>)
    requires id < |s.rows|
  {
    var (created, refund) := Create(s, id);
    if crash == AfterCreate then (created, None)
    else (Update(created, id, refund), if crash == Never then Some(refund) else None)
  }

  function Call(s: State, crash: Crash): (State, Option<StripeId>) {
    var retried := Unresolved(s.rows);
    if crash == AfterSelect then (s, None)
    else if retried.None? then
      var inserted := Insert(s);
      if crash == AfterInsert || crash == AfterList then (inserted, None) else CreateAndRecord(inserted, |s.rows|, crash)
    else
      var id := retried.value;
      var reconciled := Find(s.refunds, id, LIST_LIMIT);
      if crash == AfterInsert || crash == AfterList then (s, None)
      else if reconciled.Some? then
        if crash == AfterCreate then (s, None)
        else (Update(s, id, reconciled.value), if crash == Never then Some(reconciled.value) else None)
      else CreateAndRecord(s, id, crash)
  }

  /** The tables and Stripe, changed in place. */
  class RefundStore {
    var rows: seq<Row>
    var refunds: seq<Option<RowId>>
    var keys: map<RowId, StripeId>

    constructor ()
      ensures View() == State([], [], map[])
    {
      rows, refunds, keys := [], [], map[];
    }

    function View(): State
      reads this
    {
      State(rows, refunds, keys)
    }

    /** `stripe.refunds.create`. */
    method CreateRefund(refundRowId: RowId) returns (stripeRefund: StripeId)
      modifies this`refunds, this`keys
      ensures (View(), stripeRefund) == Create(old(View()), refundRowId)
    {
      if refundRowId in keys {
        stripeRefund := keys[refundRowId];
      } else {
        stripeRefund := |refunds|;
        refunds := refunds + [Some(refundRowId)];
        keys := keys[refundRowId := stripeRefund];
      }
    }

    /** `initiateRefund`, up to the statement after which it crashes. */
    method InitiateRefund(crash: Crash) returns (result: Option<StripeId>)
      modifies this
      ensures (View(), result) == Call(old(View()), crash)
    {
      var existingAttempt := LatestPending(rows);
      if crash == AfterSelect {
        return None;
      }
      var refundRowId, isRetryOfUnresolvedAttempt;
      if existingAttempt.Some? && rows[existingAttempt.value].provider.None? {
        refundRowId, isRetryOfUnresolvedAttempt := existingAttempt.value, true;
      } else {
        refundRowId, isRetryOfUnresolvedAttempt := |rows|, false;
        rows := rows + [Row(None, Pending)];
      }
      if crash == AfterInsert {
        return None;
      }
      var stripeRefund: Option<StripeId> := None;
      if isRetryOfUnresolvedAttempt {
        stripeRefund := Find(refunds, refundRowId, LIST_LIMIT);
      }
      if crash == AfterList {
        return None;
      }
      if stripeRefund.None? {
        var created := CreateRefund(refundRowId);
        stripeRefund := Some(created);
      }
      if crash == AfterCreate {
        return None;
      }
      rows := rows[refundRowId := rows[refundRowId].(provider := stripeRefund)];
      result := if crash == Never then stripeRefund else None;
    }
  }
}
