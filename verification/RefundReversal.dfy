/** Reversing a booking's ledger lines as it is refunded, to the penny. */
module RefundReversal {
  import opened Rounding
  import opened Wrappers

  datatype Category = Accommodation | Cleaning | GuestServiceFee | Taxes | HostCommission | HostRevenue | HostPayout

  const CATEGORIES: seq<Category> := [Accommodation, Cleaning, GuestServiceFee, Taxes, HostCommission, HostRevenue, HostPayout]

  /** An amount for each category. */
  datatype Components = Components(
    accommodationMinor: int, cleaningMinor: int, guestServiceFeeMinor: int, taxesMinor: int,
    hostCommissionMinor: int, hostRevenueMinor: int, hostPayoutMinor: int)
  {
    function Of(category: Category): int {
      match category
      case Accommodation => accommodationMinor
      case Cleaning => cleaningMinor
      case GuestServiceFee => guestServiceFeeMinor
      case Taxes => taxesMinor
      case HostCommission => hostCommissionMinor
      case HostRevenue => hostRevenueMinor
      case HostPayout => hostPayoutMinor
    }
  }

  datatype RowType = Refund | Line(category: Category)
  datatype RowStatus = Paid | Reversed
  datatype LedgerRow = LedgerRow(rowType: RowType, amountMinor: int, status: RowStatus)

  datatype Reversal = Reversal(rows: seq<LedgerRow>, hostPayoutReversalMinor: int)
  datatype ReversalError = ChargeNotPositive | CumulativeOutOfRange

  /** What should be reversed of an amount once `cumulative` of `charge` is refunded. */
  function Target(original: int, cumulative: int, charge: int): int
    requires charge > 0
  {
    Round(original * cumulative, charge)
  }

  /** What an event adds to a category's reversal. */
  function Increment(original: Components, alreadyReversed: Components, cumulative: int, charge: int, category: Category): int
    requires charge > 0
  {
    Target(original.Of(category), cumulative, charge) - alreadyReversed.Of(category)
  }

  function ReversalRow(original: Components, alreadyReversed: Components, cumulative: int, charge: int, category: Category): LedgerRow
    requires charge > 0
  {
    LedgerRow(Line(category), -Increment(original, alreadyReversed, cumulative, charge, category), Reversed)
  }

  function ReversalRows(original: Components, alreadyReversed: Components, cumulative: int, charge: int, n: nat): (rows: seq<LedgerRow>)
    requires charge > 0 && n <= |CATEGORIES|
    ensures |rows| == n
  {
    if n == 0 then []
    else ReversalRows(original, alreadyReversed, cumulative, charge, n - 1) +
         [ReversalRow(original, alreadyReversed, cumulative, charge, CATEGORIES[n - 1])]
  }

  function Reverse(original: Components, alreadyReversed: Components, amount: int, cumulative: int, charge: int):
    Result<Reversal, ReversalError>
  {
    if charge <= 0 then Err(ChargeNotPositive)
    else if cumulative < 0 || cumulative > charge then Err(CumulativeOutOfRange)
    else Ok(Reversal(
              [LedgerRow(Refund, amount, Paid)] + ReversalRows(original, alreadyReversed, cumulative, charge, |CATEGORIES|),
              Increment(original, alreadyReversed, cumulative, charge, HostPayout)))
  }

  /** `computeRefundReversalEntries`. */
  method ComputeRefundReversalEntries(original: Components, alreadyReversed: Components,
                                      refundAmountForThisEvent: int, cumulativeRefundedAmount: int, originalChargeAmount: int)
    returns (result: Result<Reversal, ReversalError>)
    ensures result == Reverse(original, alreadyReversed, refundAmountForThisEvent, cumulativeRefundedAmount, originalChargeAmount)
  {
    if originalChargeAmount <= 0 {
      return Err(ChargeNotPositive);
    }
    if cumulativeRefundedAmount < 0 || cumulativeRefundedAmount > originalChargeAmount {
      return Err(CumulativeOutOfRange);
    }
    var rows := [LedgerRow(Refund, refundAmountForThisEvent, Paid)];
    var hostPayoutReversalMinor := 0;
    for i := 0 to |CATEGORIES|
      invariant rows == [LedgerRow(Refund, refundAmountForThisEvent, Paid)] +
                        ReversalRows(original, alreadyReversed, cumulativeRefundedAmount, originalChargeAmount, i)
      invariant i == |CATEGORIES| ==>
        hostPayoutReversalMinor == Increment(original, alreadyReversed, cumulativeRefundedAmount, originalChargeAmount, HostPayout)
    {
      var key := CATEGORIES[i];
      var target := Round(original.Of(key) * cumulativeRefundedAmount, originalChargeAmount);
      var increment := target - alreadyReversed.Of(key);
      rows := rows + [LedgerRow(Line(key), -increment, Reversed)];
      if key == HostPayout {
        hostPayoutReversalMinor := increment;
      }
    }
    return Ok(Reversal(rows, hostPayoutReversalMinor));
  }

  /** When an event is refused, and that an accepted one has one row for the guest and one for each category in turn. */
  lemma ReversedIff(original: Components, alreadyReversed: Components, amount: int, cumulative: int, charge: int)
    ensures var result := Reverse(original, alreadyReversed, amount, cumulative, charge);
            && (result == Err(ChargeNotPositive) <==> charge <= 0)
            && (result == Err(CumulativeOutOfRange) <==> charge > 0 && !(0 <= cumulative <= charge))
            && (result.Ok? ==>
                  && |result.value.rows| == 8 && result.value.rows[0] == LedgerRow(Refund, amount, Paid)
                  && (forall i | 0 <= i < 7 :: result.value.rows[i + 1].rowType == Line(CATEGORIES[i]) && result.value.rows[i + 1].status == Reversed)
                  && result.value.rows[7].rowType == Line(HostPayout) && result.value.rows[7].amountMinor == -result.value.hostPayoutReversalMinor)
  {
    if charge > 0 {
      RowOfPlace(original, alreadyReversed, cumulative, charge, 7);
    }
    hide ReversalRows, ReversalRow;
  }

  lemma {:induction false} RowOfPlace(original: Components, alreadyReversed: Components, cumulative: int, charge: int, n: nat)
    requires charge > 0 && n <= |CATEGORIES|
    ensures forall i | 0 <= i < n :: ReversalRows(original, alreadyReversed, cumulative, charge, n)[i] ==
                                     LedgerRow(Line(CATEGORIES[i]), -Increment(original, alreadyReversed, cumulative, charge, CATEGORIES[i]), Reversed)
  {
    hide Increment;
    if n > 0 {
      RowOfPlace(original, alreadyReversed, cumulative, charge, n - 1);
    }
  }

  // ----- the sums of targets

  /** The four lines that the guest paid for. */
  function GuestTotal(original: Components): int {
    original.accommodationMinor + original.cleaningMinor + original.guestServiceFeeMinor + original.taxesMinor
  }

  function GuestTarget(original: Components, cumulative: int, charge: int): int
    requires charge > 0
  {
    Target(original.accommodationMinor, cumulative, charge) + Target(original.cleaningMinor, cumulative, charge) +
    Target(original.guestServiceFeeMinor, cumulative, charge) + Target(original.taxesMinor, cumulative, charge)
  }

  lemma FourRounded(a: int, b: int, c: int, d: int, total: int, q: int)
    requires q > 0 && a + b + c + d == total * q
    ensures total - 1 <= Round(a, q) + Round(b, q) + Round(c, q) + Round(d, q) <= total + 2
  {
    RoundBounds(a, q);
    RoundBounds(b, q);
    RoundBounds(c, q);
    RoundBounds(d, q);
    var sum := Round(a, q) + Round(b, q) + Round(c, q) + Round(d, q);
    assert 2 * q * sum == 2 * q * Round(a, q) + 2 * q * Round(b, q) + 2 * q * Round(c, q) + 2 * q * Round(d, q);
    var excess := sum - total;
    assert 2 * q * excess == 2 * q * sum - 2 * (total * q);
    assert -4 * q < 2 * q * excess <= 4 * q;
    Scaled(2 * q, 3, excess);
    Scaled(2 * q, excess, -2);
  }

  /** The guest's four lines together are within one below and two above the amount refunded. */
  lemma GuestLinesNearRefund(original: Components, cumulative: int, charge: int)
    requires charge > 0 && GuestTotal(original) == charge
    ensures cumulative - 1 <= GuestTarget(original, cumulative, charge) <= cumulative + 2
  {
    var o := original;
    assert o.accommodationMinor * cumulative + o.cleaningMinor * cumulative + o.guestServiceFeeMinor * cumulative + o.taxesMinor * cumulative
        == GuestTotal(o) * cumulative == cumulative * charge;
    FourRounded(o.accommodationMinor * cumulative, o.cleaningMinor * cumulative,
                o.guestServiceFeeMinor * cumulative, o.taxesMinor * cumulative, cumulative, charge);
  }

  /** Both ends are reached, by bookings whose four lines are one unit each. */
  lemma GuestLinesReachBothEnds()
    ensures var ones := Components(1, 1, 1, 1, 0, 0, 4);
            GuestTarget(ones, 1, 4) == 0 && GuestTarget(ones, 2, 4) == 4
  {
    RoundIs(1 * 1, 4, 0);
    RoundIs(1 * 2, 4, 1);
    hide Round;
  }

  /** The amount falls exactly half way between two minor units. */
  predicate HalfWay(original: int, cumulative: int, charge: int)
    requires charge > 0
  {
    2 * (original * cumulative % charge) == charge
  }

  lemma RoundByRemainder(p: int, q: int)
    requires q > 0
    ensures Round(p, q) == p / q + if 2 * (p % q) >= q then 1 else 0
  {
    var r := p / q + if 2 * (p % q) >= q then 1 else 0;
    assert p == q * (p / q) + p % q;
    assert 2 * q * r == 2 * (q * (p / q)) + if 2 * (p % q) >= q then 2 * q else 0;
    RoundIs(p, q, r);
  }

  lemma TwoRounded(a: int, b: int, total: int, q: int)
    requires q > 0 && a + b == total * q
    ensures Round(a, q) + Round(b, q) == total + if 2 * (a % q) == q then 1 else 0
  {
    RoundByRemainder(a, q);
    RoundByRemainder(b, q);
    var quotients := a / q + b / q;
    assert a == q * (a / q) + a % q && b == q * (b / q) + b % q;
    assert q * quotients == q * (a / q) + q * (b / q);
    assert a % q + b % q == q * (total - quotients);
    RemaindersOfMultiple(a % q + b % q, total - quotients, q);
  }

  lemma RemaindersOfMultiple(sum: int, k: int, q: int)
    requires q > 0 && 0 <= sum < 2 * q && sum == q * k
    ensures k == 0 || k == 1
  {}

  /**
   * Where payout and revenue share the whole charge, as under launch pricing, the two reversals
   * together are the amount refunded, or one unit more exactly when the payout falls half way.
   */
  lemma PayoutAndRevenueMatchRefund(original: Components, cumulative: int, charge: int)
    requires charge > 0 && original.hostPayoutMinor + original.hostRevenueMinor == charge
    ensures Target(original.hostPayoutMinor, cumulative, charge) + Target(original.hostRevenueMinor, cumulative, charge) ==
            cumulative + if HalfWay(original.hostPayoutMinor, cumulative, charge) then 1 else 0
  {
    assert original.hostPayoutMinor * cumulative + original.hostRevenueMinor * cumulative == cumulative * charge;
    TwoRounded(original.hostPayoutMinor * cumulative, original.hostRevenueMinor * cumulative, cumulative, charge);
  }

  /** A target lies between nothing and the whole amount, and never falls as more is refunded. */
  lemma TargetRange(original: int, cumulative: int, cumulative': int, charge: int)
    requires charge > 0 && original >= 0 && 0 <= cumulative <= cumulative' <= charge
    ensures 0 <= Target(original, cumulative, charge) <= Target(original, cumulative', charge) <= original
    ensures Target(original, 0, charge) == 0 && Target(original, charge, charge) == original
  {
    assert 0 <= original * cumulative <= original * cumulative' <= original * charge;
    RoundExact(0, charge);
    RoundExact(original, charge);
    assert original * 0 == 0 * charge;
    RoundMonotone(0, original * cumulative, charge);
    RoundMonotone(original * cumulative, original * cumulative', charge);
    RoundMonotone(original * cumulative', original * charge, charge);
  }
}
