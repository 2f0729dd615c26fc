/** The calendar feeds of one property: what each transaction makes of them, and how many there can be. */
module AvailabilityFeeds {
  import opened Wrappers
  import opened AvailabilityTable
  import opened AvailabilityTransactions
  import opened AvailabilityLocks

  /** The transactions that throw, and why; all others commit. */
  lemma RefusedIff(db: Db, op: Op, today: Day)
    ensures Outcome(db, op, today) == Err(FeedExists) <==> op.CreateFeed? && op.feed in db.feeds
    ensures Outcome(db, op, today) == Err(TooManyFeeds) <==> op.CreateFeed? && op.feed !in db.feeds && |db.feeds| >= 10
    ensures Outcome(db, op, today) == Err(FeedMissing) <==>
            || ((op.SetFeedActive? || op.DeleteFeed?) && op.feed !in db.feeds)
            || (op.ReplaceFeedEvents? && op.feed !in db.feeds && op.events != {})
    ensures Outcome(db, op, today) == Err(BookingMissing) <==> LocksBooking(op) && op.id !in db.stays
    ensures Outcome(db, op, today) == Err(DatesUnavailable) <==>
            op.CreateBooking? && exists d | d in db.table :: op.checkIn <= d < op.checkOut && db.table[d].status != Available
    ensures Outcome(db, op, today) == Err(DuplicateKey) <==>
            && op.CreateBooking? && (op.key in db.otherKeys || exists id | id in db.stays :: db.stays[id].key == op.key)
            && forall d | d in db.table && op.checkIn <= d < op.checkOut :: db.table[d].status == Available
  {
    hide Reconcile, MutateHost, Book, DeleteBookedRows, DeleteBookingRows;
  }

  /** A feed as the transaction leaves it, and the others as they were. */
  ghost predicate OnlyFeed(before: map<FeedId, Feed>, after: map<FeedId, Feed>, feed: FeedId) {
    forall f | f != feed :: (f in after <==> f in before) && (f in after ==> after[f] == before[f])
  }

  /**
   * What a transaction makes of the feeds: a new one is active and has no events; a switch changes its flag
   * and nothing else; a deleted one is gone; a sync replaces the events and leaves the flag. Bookings and
   * host blocks leave all feeds alone.
   */
  lemma FeedsAfter(db: Db, op: Op, today: Day)
    requires Outcome(db, op, today).Ok?
    ensures var before, after := db.feeds, Outcome(db, op, today).value.feeds;
            match op
            case CreateFeed(feed) => feed !in before && feed in after && after[feed].active && after[feed].events == {} && OnlyFeed(before, after, feed)
            case SetFeedActive(feed, active) =>
              && feed in before && feed in after && (after[feed].active <==> active) && after[feed].events == before[feed].events
              && OnlyFeed(before, after, feed)
            case DeleteFeed(feed) => feed in before && feed !in after && OnlyFeed(before, after, feed)
            case ReplaceFeedEvents(feed, events) =>
              && (feed in after <==> feed in before) && OnlyFeed(before, after, feed)
              && (feed in after ==> after[feed].events == events && (after[feed].active <==> before[feed].active))
            case _ => after == before
  {
    hide Reconcile, MutateHost, Book, DeleteBookedRows, DeleteBookingRows, NightsFree, KeyTaken;
  }

  // ----- over runs

  lemma KeysOf(before: map<FeedId, Feed>, after: map<FeedId, Feed>, feed: FeedId)
    requires OnlyFeed(before, after, feed)
    ensures |after| <= |before| + if feed in after && feed !in before then 1 else 0
  {
    assert after.Keys <= before.Keys + if feed in after then {feed} else {};
    if feed in after && feed !in before {
      assert after.Keys <= before.Keys + {feed};
      Smaller(after.Keys, before.Keys + {feed});
      assert |after.Keys| == |after| && |before.Keys| == |before|;
    } else {
      assert after.Keys <= before.Keys;
      Smaller(after.Keys, before.Keys);
      assert |after.Keys| == |after| && |before.Keys| == |before|;
    }
  }

  lemma Smaller(a: set<FeedId>, b: set<FeedId>)
    requires a <= b
    ensures |a| <= |b|
  {
    assert b == a + (b - a);
  }

  lemma FewFeedsAfter(db: Db, op: Op, today: Day)
    requires Outcome(db, op, today).Ok? && |db.feeds| <= 10
    ensures |Outcome(db, op, today).value.feeds| <= 10
  {
    FeedsAfter(db, op, today);
    RefusedIff(db, op, today);
    var after := Outcome(db, op, today).value.feeds;
    hide Outcome, OnlyFeed;
    match op
    case CreateFeed(feed) => KeysOf(db.feeds, after, feed);
    case SetFeedActive(feed, _) => KeysOf(db.feeds, after, feed);
    case DeleteFeed(feed) => KeysOf(db.feeds, after, feed);
    case ReplaceFeedEvents(feed, _) => KeysOf(db.feeds, after, feed);
    case _ =>
  }

  lemma StepKeepsFew(s: State, e: Event)
    requires LockInv(s) && Enabled(s, e) && |s.db.feeds| <= 10
    ensures |Apply(s, e).db.feeds| <= 10
  {
    hide Outcome, Commit;
    if e.CommitTxn? {
      var op, began := s.txns[e.txn].op, s.txns[e.txn].began;
      CommitGivesOutcome(s.db, op, began);
      FewFeedsAfter(s.db, op, began);
    }
  }

  lemma {:induction false} RunKeepsFew(s: State, run: seq<Event>)
    requires LockInv(s) && Valid(s, run) && |s.db.feeds| <= 10
    ensures |Exec(s, run).db.feeds| <= 10
    decreases |run|
  {
    hide LockInv, Apply, Enabled;
    if run != [] {
      StepKeepsLocks(s, run[0]);
      StepKeepsFew(s, run[0]);
      RunKeepsFew(Apply(s, run[0]), run[1..]);
    }
  }

  /** No interleaving of requests gives a property more than ten feeds. */
  lemma AtMostTenFeeds(s: State, run: seq<Event>)
    requires Initial(s) && Valid(s, run)
    ensures |Exec(s, run).db.feeds| <= 10
  {
    InitialInv(s);
    RunKeepsFew(s, run);
  }
}
