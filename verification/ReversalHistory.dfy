/** The ledger of one booking under any sequence of succeeded refunds. */
module ReversalHistory {
  import opened RefundReversal
  import PriceEngine

  datatype PayoutStatus = Scheduled | Cancelled | PaidOut
  datatype Payout = Payout(amountMinor: int, status: PayoutStatus)

  /** The succeeded refund amounts, the ledger rows, and the scheduled payout. */
  datatype Books = Books(refunded: seq<int>, ledger: seq<LedgerRow>, payout: Payout)

  function Sum(amounts: seq<int>): int {
    if amounts == [] then 0 else Sum(amounts[..|amounts| - 1]) + amounts[|amounts| - 1]
  }

  /** The sum of the reversed rows of one category, as the ledger query gives it. */
  function LedgerTotal(ledger: seq<LedgerRow>, category: Category): int {
    if ledger == [] then 0
    else
      var last := ledger[|ledger| - 1];
      LedgerTotal(ledger[..|ledger| - 1], category) +
      if last.status == Reversed && last.rowType == Line(category) then last.amountMinor else 0
  }

  function AlreadyReversed(ledger: seq<LedgerRow>): Components {
    Components(-LedgerTotal(ledger, Accommodation), -LedgerTotal(ledger, Cleaning), -LedgerTotal(ledger, GuestServiceFee),
               -LedgerTotal(ledger, Taxes), -LedgerTotal(ledger, HostCommission), -LedgerTotal(ledger, HostRevenue),
               -LedgerTotal(ledger, HostPayout))
  }

  function PayoutAfter(payout: Payout, cumulative: int, charge: int, reversal: int): Payout {
    if payout.status != Scheduled then payout
    else if cumulative >= charge then payout.(status := Cancelled)
    else if reversal > 0 then payout.(amountMinor := payout.amountMinor - reversal)
    else payout
  }

  /** The transaction for one succeeded refund; a thrown error rolls it back. */
  function OnRefund(books: Books, original: Components, charge: int, amount: int): Books {
    var refunded := books.refunded + [amount];
    match Reverse(original, AlreadyReversed(books.ledger), amount, Sum(refunded), charge)
    case Err(_) => books
    case Ok(reversal) =>
      Books(refunded, books.ledger + reversal.rows,
            PayoutAfter(books.payout, Sum(refunded), charge, reversal.hostPayoutReversalMinor))
  }

  function History(books: Books, original: Components, charge: int, amounts: seq<int>): Books
    decreases |amounts|
  {
    if amounts == [] then books else History(OnRefund(books, original, charge, amounts[0]), original, charge, amounts[1..])
  }

  /** The rows of one booking, changed by the refund webhook. */
  class BookingLedger {
    const original: Components
    const charge: int
    var refunded: seq<int>
    var ledger: seq<LedgerRow>
    var payout: Payout

    constructor (original: Components, charge: int)
      ensures this.original == original && this.charge == charge
      ensures View() == Opened(original)
    {
      this.original, this.charge := original, charge;
      refunded, ledger, payout := [], [], Payout(original.hostPayoutMinor, Scheduled);
    }

    function View(): Books
      reads this
    {
      Books(refunded, ledger, payout)
    }

    /** `onRefundEvent`, for a refund that has just succeeded. */
    method OnRefundEvent(amount: int) returns (recorded: bool)
      modifies this
      ensures View() == OnRefund(old(View()), original, charge, amount)
      ensures recorded <==> charge > 0 && 0 <= Sum(old(refunded) + [amount]) <= charge
    {
      var cumulativeRefunded := Sum(refunded + [amount]);
      var fullyRefunded := cumulativeRefunded >= charge;
      var result := ComputeRefundReversalEntries(original, AlreadyReversed(ledger), amount, cumulativeRefunded, charge);
      if result.Err? {
        return false;
      }
      var rows := result.value.rows;
      ghost var before := ledger;
      refunded := refunded + [amount];
      for i := 0 to |rows|
        invariant ledger == before + rows[..i]
        invariant refunded == old(refunded) + [amount] && payout == old(payout)
      {
        ledger := ledger + [rows[i]];
      }
      assert rows[..|rows|] == rows;
      if fullyRefunded {
        if payout.status == Scheduled {
          payout := payout.(status := Cancelled);
        }
      } else if result.value.hostPayoutReversalMinor > 0 && payout.status == Scheduled {
        payout := payout.(amountMinor := payout.amountMinor - result.value.hostPayoutReversalMinor);
      }
      return true;
    }
  }

  // ----- the ledger after one event

  lemma TotalSnoc(ledger: seq<LedgerRow>, row: LedgerRow, category: Category)
    ensures LedgerTotal(ledger + [row], category) == LedgerTotal(ledger, category) +
            if row.status == Reversed && row.rowType == Line(category) then row.amountMinor else 0
  {}

  function Place(category: Category): nat {
    match category
    case Accommodation => 0
    case Cleaning => 1
    case GuestServiceFee => 2
    case Taxes => 3
    case HostCommission => 4
    case HostRevenue => 5
    case HostPayout => 6
  }

  lemma AtItsPlace(category: Category, i: nat)
    requires i < |CATEGORIES|
    ensures CATEGORIES[i] == category <==> Place(category) == i
  {}

  /** Of the rows of one event, only the category's own counts for it. */
  lemma {:induction false} RowsTotal(ledger: seq<LedgerRow>, original: Components, already: Components, cumulative: int, charge: int,
                                     n: nat, category: Category)
    requires charge > 0 && n <= |CATEGORIES|
    ensures LedgerTotal(ledger + ReversalRows(original, already, cumulative, charge, n), category) ==
            LedgerTotal(ledger, category) - if Place(category) < n then Increment(original, already, cumulative, charge, category) else 0
    decreases n
  {
    hide Increment, Place, Components.Of, LedgerTotal;
    if n == 0 {
      assert ledger + [] == ledger;
    } else {
      var before := ReversalRows(original, already, cumulative, charge, n - 1);
      var row := ReversalRow(original, already, cumulative, charge, CATEGORIES[n - 1]);
      RowsTotal(ledger, original, already, cumulative, charge, n - 1, category);
      TotalSnoc(ledger + before, row, category);
      assert ledger + (before + [row]) == ledger + before + [row];
      AtItsPlace(category, n - 1);
    }
  }

  lemma ReversedOf(ledger: seq<LedgerRow>, category: Category)
    ensures AlreadyReversed(ledger).Of(category) == -LedgerTotal(ledger, category)
  {}

  /** Whatever was reversed before, after an accepted event every category stands at its target. */
  lemma EventHitsTargets(books: Books, original: Components, charge: int, amount: int, category: Category)
    requires charge > 0 && 0 <= Sum(books.refunded + [amount]) <= charge
    ensures var after := OnRefund(books, original, charge, amount);
            && after.refunded == books.refunded + [amount]
            && AlreadyReversed(after.ledger).Of(category) == Target(original.Of(category), Sum(after.refunded), charge)
  {
    var cumulative := Sum(books.refunded + [amount]);
    var already := AlreadyReversed(books.ledger);
    var rows := ReversalRows(original, already, cumulative, charge, |CATEGORIES|);
    var refund := LedgerRow(Refund, amount, Paid);
    var after := OnRefund(books, original, charge, amount);
    AcceptedRows(books, original, charge, amount);
    hide AlreadyReversed, OnRefund, LedgerTotal, ReversalRows, Target, Components.Of, Sum;
    TotalSnoc(books.ledger, refund, category);
    RowsTotal(books.ledger + [refund], original, already, cumulative, charge, |CATEGORIES|, category);
    ReversedOf(books.ledger, category);
    ReversedOf(after.ledger, category);
  }

  lemma AcceptedRows(books: Books, original: Components, charge: int, amount: int)
    requires charge > 0 && 0 <= Sum(books.refunded + [amount]) <= charge
    ensures var after := OnRefund(books, original, charge, amount);
            && after.refunded == books.refunded + [amount]
            && after.ledger == books.ledger + [LedgerRow(Refund, amount, Paid)] +
                               ReversalRows(original, AlreadyReversed(books.ledger), Sum(books.refunded + [amount]), charge, |CATEGORIES|)
  {}

  // ----- every history

  /** The books of a booking before any refund. */
  function Opened(original: Components): Books {
    Books([], [], Payout(original.hostPayoutMinor, Scheduled))
  }

  ghost predicate Exact(books: Books, original: Components, charge: int)
    requires charge > 0
  {
    && 0 <= Sum(books.refunded) <= charge
    && forall c: Category :: AlreadyReversed(books.ledger).Of(c) == Target(original.Of(c), Sum(books.refunded), charge)
  }

  lemma EventKeepsExact(books: Books, original: Components, charge: int, amount: int)
    requires charge > 0 && Exact(books, original, charge)
    ensures Exact(OnRefund(books, original, charge, amount), original, charge)
  {
    if 0 <= Sum(books.refunded + [amount]) <= charge {
      forall c: Category ensures
        var after := OnRefund(books, original, charge, amount);
        AlreadyReversed(after.ledger).Of(c) == Target(original.Of(c), Sum(after.refunded), charge)
      {
        EventHitsTargets(books, original, charge, amount, c);
      }
    }
  }

  lemma {:induction false} HistoryIsExact(books: Books, original: Components, charge: int, amounts: seq<int>)
    requires charge > 0 && Exact(books, original, charge)
    ensures Exact(History(books, original, charge, amounts), original, charge)
    decreases |amounts|
  {
    if amounts != [] {
      EventKeepsExact(books, original, charge, amounts[0]);
      HistoryIsExact(OnRefund(books, original, charge, amounts[0]), original, charge, amounts[1..]);
    }
  }

  lemma NothingReversedYet()
    ensures AlreadyReversed([]) == Components(0, 0, 0, 0, 0, 0, 0) && Sum([]) == 0
  {
    forall c: Category ensures LedgerTotal([], c) == 0 {
      EmptyTotal(c);
    }
    hide LedgerTotal;
  }

  lemma EmptyTotal(category: Category)
    ensures LedgerTotal([], category) == 0
  {}

  lemma NothingToReverse(original: int, charge: int)
    requires charge > 0
    ensures Target(original, 0, charge) == 0
  {}

  lemma OpenedIsExact(original: Components, charge: int)
    requires charge > 0
    ensures Exact(Opened(original), original, charge)
  {
    NothingReversedYet();
    hide Target, AlreadyReversed, Sum;
    forall c: Category ensures AlreadyReversed([]).Of(c) == Target(original.Of(c), 0, charge) {
      NothingToReverse(original.Of(c), charge);
    }
  }

  /** The rounded share of what is refunded: never more than the original, all of it at full refund. */
  predicate RoundedShare(original: int, cumulative: int, charge: int, reversed: int)
    requires charge > 0
  {
    && 0 <= cumulative <= charge
    && reversed == Target(original, cumulative, charge)
    && 0 <= reversed <= original
    && (cumulative == charge ==> reversed == original)
  }

  lemma ShareOf(books: Books, original: Components, charge: int, category: Category)
    requires charge > 0 && Exact(books, original, charge) && original.Of(category) >= 0
    ensures RoundedShare(original.Of(category), Sum(books.refunded), charge, AlreadyReversed(books.ledger).Of(category))
  {
    var cumulative := Sum(books.refunded);
    hide Components.Of, AlreadyReversed, Sum, Target;
    TargetRange(original.Of(category), cumulative, charge, charge);
  }

  /**
   * Over every history of refunds, refused ones included, what is reversed of each category is the
   * rounded share of what is refunded so far.
   */
  lemma ReversedIsRoundedShare(original: Components, charge: int, amounts: seq<int>, category: Category)
    requires charge > 0 && original.Of(category) >= 0
    ensures var books := History(Opened(original), original, charge, amounts);
            RoundedShare(original.Of(category), Sum(books.refunded), charge, AlreadyReversed(books.ledger).Of(category))
  {
    hide RoundedShare, Exact, History, Opened;
    OpenedIsExact(original, charge);
    HistoryIsExact(Opened(original), original, charge, amounts);
    ShareOf(History(Opened(original), original, charge, amounts), original, charge, category);
  }

  /** Histories in different orders that record the same total reverse the same amounts. */
  lemma OrderDoesNotMatter(original: Components, charge: int, amounts: seq<int>, others: seq<int>, category: Category)
    requires charge > 0
    ensures var a := History(Opened(original), original, charge, amounts);
            var b := History(Opened(original), original, charge, others);
            Sum(a.refunded) == Sum(b.refunded) ==> AlreadyReversed(a.ledger).Of(category) == AlreadyReversed(b.ledger).Of(category)
  {
    hide History, Opened, AlreadyReversed, Target, Sum;
    OpenedIsExact(original, charge);
    HistoryIsExact(Opened(original), original, charge, amounts);
    HistoryIsExact(Opened(original), original, charge, others);
  }

  // ----- the scheduled payout

  /** The scheduled payout is what is left of the host's share; it is cancelled at full refund. */
  predicate PayoutFollows(books: Books, original: Components, charge: int)
    requires charge > 0
  {
    && (books.payout.status == Scheduled ==>
          Sum(books.refunded) < charge && books.payout.amountMinor == original.hostPayoutMinor - AlreadyReversed(books.ledger).hostPayoutMinor)
    && (books.payout.status == Cancelled ==> Sum(books.refunded) == charge)
  }

  lemma SumSnoc(amounts: seq<int>, a: int)
    ensures Sum(amounts + [a]) == Sum(amounts) + a
  {}

  lemma EventKeepsPayout(books: Books, original: Components, charge: int, amount: int)
    requires charge > 0 && original.hostPayoutMinor >= 0 && amount >= 0
    requires Exact(books, original, charge) && PayoutFollows(books, original, charge)
    ensures PayoutFollows(OnRefund(books, original, charge, amount), original, charge)
  {
    var cumulative := Sum(books.refunded + [amount]);
    SumSnoc(books.refunded, amount);
    hide Target;
    if cumulative <= charge {
      EventHitsTargets(books, original, charge, amount, HostPayout);
      TargetRange(original.hostPayoutMinor, Sum(books.refunded), cumulative, charge);
      assert AlreadyReversed(books.ledger).Of(HostPayout) == Target(original.Of(HostPayout), Sum(books.refunded), charge);
    }
  }

  lemma {:induction false} PayoutFollowsHistory(books: Books, original: Components, charge: int, amounts: seq<int>)
    requires charge > 0 && original.hostPayoutMinor >= 0 && forall a | a in amounts :: a >= 0
    requires Exact(books, original, charge) && PayoutFollows(books, original, charge)
    ensures PayoutFollows(History(books, original, charge, amounts), original, charge)
    decreases |amounts|
  {
    if amounts != [] {
      hide Exact, PayoutFollows, OnRefund;
      EventKeepsExact(books, original, charge, amounts[0]);
      assert amounts[0] in amounts;
      EventKeepsPayout(books, original, charge, amounts[0]);
      assert forall a | a in amounts[1..] :: a in amounts;
      PayoutFollowsHistory(OnRefund(books, original, charge, amounts[0]), original, charge, amounts[1..]);
    }
  }

  lemma OpenedPays(original: Components, charge: int)
    requires charge > 0
    ensures PayoutFollows(Opened(original), original, charge)
  {
    NothingReversedYet();
    hide AlreadyReversed, Sum;
  }

  /** Over every history of refunds of nonnegative amounts, the payout row pays what the ledger has left for the host. */
  lemma PayoutIsWhatIsLeft(original: Components, charge: int, amounts: seq<int>)
    requires charge > 0 && original.hostPayoutMinor >= 0 && forall a | a in amounts :: a >= 0
    ensures PayoutFollows(History(Opened(original), original, charge, amounts), original, charge)
  {
    OpenedIsExact(original, charge);
    OpenedPays(original, charge);
    hide Exact, PayoutFollows, Opened, History;
    PayoutFollowsHistory(Opened(original), original, charge, amounts);
  }

  /**
   * What one accepted event makes of the payout: a full refund cancels a scheduled one and leaves its
   * amount, a partial one takes the host's share of what it reverses off it, and one that is no longer
   * scheduled stays as it is. A refused event changes nothing at all.
   */
  lemma PayoutAfterEvent(books: Books, original: Components, charge: int, amount: int)
    requires charge > 0
    ensures var after := OnRefund(books, original, charge, amount);
            var total := Sum(books.refunded) + amount;
            var taken := Target(original.hostPayoutMinor, total, charge) - AlreadyReversed(books.ledger).hostPayoutMinor;
            if !(0 <= total <= charge) then after == books
            else if books.payout.status != Scheduled then after.payout == books.payout
            else if total == charge then after.payout == Payout(books.payout.amountMinor, Cancelled)
            else after.payout == Payout(books.payout.amountMinor - (if taken > 0 then taken else 0), Scheduled)
  {
    SumSnoc(books.refunded, amount);
    hide AlreadyReversed, Target, ReversalRows, Sum;
  }

  /** Once cancelled or paid, a payout is never changed by a refund. */
  lemma {:induction false} SettledPayoutStays(books: Books, original: Components, charge: int, amounts: seq<int>)
    requires charge > 0 && books.payout.status != Scheduled
    ensures History(books, original, charge, amounts).payout == books.payout
    decreases |amounts|
  {
    hide OnRefund;
    if amounts != [] {
      PayoutAfterEvent(books, original, charge, amounts[0]);
      SettledPayoutStays(OnRefund(books, original, charge, amounts[0]), original, charge, amounts[1..]);
    }
  }

  // ----- with the prices

  function ComponentsOf(price: PriceEngine.PriceBreakdown): Components {
    Components(price.accommodationMinor, price.cleaningMinor, price.guestServiceFeeMinor, price.taxesMinor,
               price.hostCommissionMinor, price.hostRevenueMinor, price.hostPayoutMinor)
  }

  /**
   * For every priced stay and every history of its refunds: the guest's four lines reversed are
   * within one below and two above the amount refunded; under launch pricing payout and revenue
   * reversed are the amount refunded, or one unit more exactly when the payout falls half way.
   */
  lemma PricedStayReversal(property: PriceEngine.Property, nights: int, feeConfig: PriceEngine.FeeConfig, amounts: seq<int>)
    requires PriceEngine.CalculatePrice(property, nights, feeConfig).Ok?
    requires PriceEngine.CalculatePrice(property, nights, feeConfig).value.guestTotalMinor > 0
    ensures var price := PriceEngine.CalculatePrice(property, nights, feeConfig).value;
            var original, charge := ComponentsOf(price), price.guestTotalMinor;
            var books := History(Opened(original), original, charge, amounts);
            var cumulative, reversed := Sum(books.refunded), AlreadyReversed(books.ledger);
            && cumulative - 1 <= GuestTotal(reversed) <= cumulative + 2
            && (feeConfig.version == PriceEngine.Host15InclusiveV1 ==>
                  reversed.hostPayoutMinor + reversed.hostRevenueMinor ==
                  cumulative + if HalfWay(original.hostPayoutMinor, cumulative, charge) then 1 else 0)
  {
    var price := PriceEngine.CalculatePrice(property, nights, feeConfig).value;
    var original, charge := ComponentsOf(price), price.guestTotalMinor;
    hide PriceEngine.CalculatePrice, History, Opened, Exact, AlreadyReversed, Sum, Target, HalfWay;
    var books := History(Opened(original), original, charge, amounts);
    var cumulative := Sum(books.refunded);
    PriceEngine.WhoGetsWhat(property, nights, feeConfig);
    OpenedIsExact(original, charge);
    HistoryIsExact(Opened(original), original, charge, amounts);
    GuestLinesNearRefund(original, cumulative, charge);
    EveryLine(books, original, charge);
    if feeConfig.version == PriceEngine.Host15InclusiveV1 {
      PayoutAndRevenueMatchRefund(original, cumulative, charge);
    }
  }

  /** Every line of the price is reversed by its own share, whatever the history. */
  lemma PricedLinesReversed(property: PriceEngine.Property, nights: int, feeConfig: PriceEngine.FeeConfig, amounts: seq<int>)
    requires PriceEngine.CalculatePrice(property, nights, feeConfig).Ok?
    requires PriceEngine.CalculatePrice(property, nights, feeConfig).value.guestTotalMinor > 0
    ensures var price := PriceEngine.CalculatePrice(property, nights, feeConfig).value;
            var charge := price.guestTotalMinor;
            var books := History(Opened(ComponentsOf(price)), ComponentsOf(price), charge, amounts);
            var cumulative, reversed := Sum(books.refunded), AlreadyReversed(books.ledger);
            && reversed.accommodationMinor == Target(price.accommodationMinor, cumulative, charge)
            && reversed.cleaningMinor == Target(price.cleaningMinor, cumulative, charge)
            && reversed.guestServiceFeeMinor == Target(price.guestServiceFeeMinor, cumulative, charge)
            && reversed.taxesMinor == Target(price.taxesMinor, cumulative, charge)
            && reversed.hostCommissionMinor == Target(price.hostCommissionMinor, cumulative, charge)
            && reversed.hostRevenueMinor == Target(price.hostRevenueMinor, cumulative, charge)
            && reversed.hostPayoutMinor == Target(price.hostPayoutMinor, cumulative, charge)
  {
    var price := PriceEngine.CalculatePrice(property, nights, feeConfig).value;
    var original, charge := ComponentsOf(price), price.guestTotalMinor;
    hide PriceEngine.CalculatePrice, History, Opened, AlreadyReversed, Sum, Target;
    OpenedIsExact(original, charge);
    HistoryIsExact(Opened(original), original, charge, amounts);
    AllLines(History(Opened(original), original, charge, amounts), original, charge);
    hide Exact;
  }

  lemma AllLines(books: Books, original: Components, charge: int)
    requires charge > 0 && Exact(books, original, charge)
    ensures var reversed, cumulative := AlreadyReversed(books.ledger), Sum(books.refunded);
            && reversed.accommodationMinor == Target(original.accommodationMinor, cumulative, charge)
            && reversed.cleaningMinor == Target(original.cleaningMinor, cumulative, charge)
            && reversed.guestServiceFeeMinor == Target(original.guestServiceFeeMinor, cumulative, charge)
            && reversed.taxesMinor == Target(original.taxesMinor, cumulative, charge)
            && reversed.hostCommissionMinor == Target(original.hostCommissionMinor, cumulative, charge)
            && reversed.hostRevenueMinor == Target(original.hostRevenueMinor, cumulative, charge)
            && reversed.hostPayoutMinor == Target(original.hostPayoutMinor, cumulative, charge)
  {
    var reversed := AlreadyReversed(books.ledger);
    hide AlreadyReversed, Target;
    assert forall c: Category :: reversed.Of(c) == Target(original.Of(c), Sum(books.refunded), charge);
    assert reversed.Of(Accommodation) == reversed.accommodationMinor && reversed.Of(Cleaning) == reversed.cleaningMinor;
    assert reversed.Of(GuestServiceFee) == reversed.guestServiceFeeMinor && reversed.Of(Taxes) == reversed.taxesMinor;
    assert reversed.Of(HostCommission) == reversed.hostCommissionMinor && reversed.Of(HostRevenue) == reversed.hostRevenueMinor;
    assert reversed.Of(HostPayout) == reversed.hostPayoutMinor;
  }

  lemma EveryLine(books: Books, original: Components, charge: int)
    requires charge > 0 && Exact(books, original, charge)
    ensures var reversed, cumulative := AlreadyReversed(books.ledger), Sum(books.refunded);
            && GuestTotal(reversed) == GuestTarget(original, cumulative, charge)
            && reversed.hostPayoutMinor == Target(original.hostPayoutMinor, cumulative, charge)
            && reversed.hostRevenueMinor == Target(original.hostRevenueMinor, cumulative, charge)
  {
    AllLines(books, original, charge);
    hide AlreadyReversed, Target;
  }
}
