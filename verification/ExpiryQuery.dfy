/**
 The query of the scheduler, `ORDER BY expiresAt ASC` with `skip` and `take`, over the expirable bookings.
 It is computed from one listing of the table by deadline; what it selects does not depend on how the
 listing breaks ties, except among equal deadlines.
 */
module ExpiryQuery {
  import opened Lists
  import opened Rental
  import opened Reservations
  import opened ExpiryTask
  import opened ExpiryLoop

  /** Earlier deadlines first; identifiers without a booking do not matter. */
  ghost predicate Ascends(order: seq<BookingId>, bookings: map<BookingId, Booking>) {
    forall i, j | 0 <= i < j < |order| && order[i] in bookings && order[j] in bookings ::
      bookings[order[i]].expiresAt <= bookings[order[j]].expiresAt
  }

  /** A fixed listing of the bookings by deadline: how `ORDER BY expiresAt` happens to break ties. */
  ghost predicate IsDeadlineOrder(order: seq<BookingId>, bookings: map<BookingId, Booking>) {
    Distinct(order) && (forall id | id in bookings :: id in order) && Ascends(order, bookings)
  }

  /** The bookings that the query selects, in order and before `skip` and `take`. */
  function Expirable(order: seq<BookingId>, bookings: map<BookingId, Booking>, now: Millis): seq<BookingId> {
    if order == [] then []
    else (if order[0] in ExpiredBookings(bookings, now) then [order[0]] else []) + Expirable(order[1..], bookings, now)
  }

  function Ids(batch: seq<BookingId>): set<BookingId> {
    set id | id in batch
  }

  lemma {:induction false} ExpirableMember(order: seq<BookingId>, bookings: map<BookingId, Booking>, now: Millis)
    ensures forall id :: id in Expirable(order, bookings, now) <==> id in order && id in ExpiredBookings(bookings, now)
  {
    if order != [] {
      ExpirableMember(order[1..], bookings, now);
      assert order == [order[0]] + order[1..];
    }
  }

  lemma {:induction false} ExpirableDistinct(order: seq<BookingId>, bookings: map<BookingId, Booking>, now: Millis)
    requires Distinct(order)
    ensures Distinct(Expirable(order, bookings, now))
  {
    if order != [] {
      ExpirableDistinct(order[1..], bookings, now);
      ExpirableMember(order[1..], bookings, now);
      DistinctConcat(if order[0] in ExpiredBookings(bookings, now) then [order[0]] else [],
                     Expirable(order[1..], bookings, now));
    }
  }

  lemma WindowMembers(pending: seq<BookingId>, offset: nat, size: nat)
    ensures forall id | id in Window(pending, offset, size) :: id in pending
  {
  }

  lemma WindowDistinct(pending: seq<BookingId>, offset: nat, size: nat)
    requires Distinct(pending)
    ensures Distinct(Window(pending, offset, size))
  {
  }

  // ---------- The right bookings, the oldest first ----------

  /** No booking of the one set has a later deadline than one of the other. */
  ghost predicate NoLater(some: set<BookingId>, others: set<BookingId>, bookings: map<BookingId, Booking>) {
    forall x, y | x in some && y in others && x in bookings && y in bookings ::
      bookings[x].expiresAt <= bookings[y].expiresAt
  }

  /**
   What `ORDER BY expiresAt ASC` with `skip` and `take` promises: it passes over the `skip` oldest expirable
   bookings, or all if there are fewer, and gives the `take` oldest of the others, or all of them, in order.
   */
  ghost predicate Selects(batch: seq<BookingId>, skipped: set<BookingId>, bookings: map<BookingId, Booking>,
                          now: Millis, skip: nat, take: nat)
  {
    var all := ExpiredBookings(bookings, now);
    && skipped <= all && |skipped| == Min(skip, |all|) && NoLater(skipped, all - skipped, bookings)
    && Ids(batch) <= all - skipped && |batch| == Min(take, |all - skipped|)
    && NoLater(Ids(batch), all - skipped - Ids(batch), bookings)
    && Distinct(batch) && Ascends(batch, bookings)
  }

  lemma {:induction false} ExpirableAscends(order: seq<BookingId>, bookings: map<BookingId, Booking>, now: Millis)
    requires Ascends(order, bookings)
    ensures Ascends(Expirable(order, bookings, now), bookings)
  {
    if order != [] {
      var rest := Expirable(order[1..], bookings, now);
      ExpirableAscends(order[1..], bookings, now);
      ExpirableMember(order[1..], bookings, now);
      forall j | 0 <= j < |rest| && order[0] in bookings && rest[j] in bookings
        ensures bookings[order[0]].expiresAt <= bookings[rest[j]].expiresAt
      {
        assert rest[j] in rest;
        var k :| 0 <= k < |order| - 1 && order[1..][k] == rest[j];
        assert order[k + 1] == rest[j];
      }
    }
  }

  lemma {:induction false} SetOfDistinct(s: seq<BookingId>)
    requires Distinct(s)
    ensures |Ids(s)| == |s|
  {
    if s != [] {
      var front, last := s[..|s| - 1], s[|s| - 1];
      SetOfDistinct(front);
      assert forall i | 0 <= i < |front| :: front[i] == s[i] != last;
      assert s == front + [last];
      assert Ids(s) == Ids(front) + {last} && last !in Ids(front);
    }
  }

  lemma ExpirableIds(order: seq<BookingId>, bookings: map<BookingId, Booking>, now: Millis)
    requires IsDeadlineOrder(order, bookings)
    ensures Ids(Expirable(order, bookings, now)) == ExpiredBookings(bookings, now)
    ensures |Expirable(order, bookings, now)| == |ExpiredBookings(bookings, now)|
  {
    ExpirableMember(order, bookings, now);
    ExpirableDistinct(order, bookings, now);
    SetOfDistinct(Expirable(order, bookings, now));
  }

  /** Cutting an ascending list: what is in front is the rest of what is behind, and no later. */
  lemma CutAscending(front: seq<BookingId>, behind: seq<BookingId>, bookings: map<BookingId, Booking>)
    requires Distinct(front + behind) && Ascends(front + behind, bookings)
    ensures Ids(front + behind) - Ids(front) == Ids(behind)
    ensures NoLater(Ids(front), Ids(behind), bookings)
    ensures Distinct(front) && Ascends(front, bookings) && Distinct(behind) && Ascends(behind, bookings)
  {
    var s := front + behind;
    assert forall i | 0 <= i < |front| :: s[i] == front[i];
    assert forall j | 0 <= j < |behind| :: s[|front| + j] == behind[j];
  }

  lemma WindowSplits<T>(e: seq<T>, skip: nat, take: nat)
    ensures var k, n := Min(skip, |e|), |Window(e, skip, take)|;
            && n == Min(take, |e| - k) && Window(e, skip, take) == e[k..k + n]
            && e == e[..k] + (e[k..k + n] + e[k + n..])
  {
  }

  /** An ascending list in three parts. */
  lemma ThreeParts(skipped: seq<BookingId>, batch: seq<BookingId>, behind: seq<BookingId>,
                   bookings: map<BookingId, Booking>, all: set<BookingId>)
    requires Distinct(skipped + (batch + behind)) && Ascends(skipped + (batch + behind), bookings)
    requires all == Ids(skipped + (batch + behind))
    ensures Ids(skipped) <= all && NoLater(Ids(skipped), all - Ids(skipped), bookings)
    ensures Ids(batch) <= all - Ids(skipped) && NoLater(Ids(batch), all - Ids(skipped) - Ids(batch), bookings)
    ensures Distinct(batch) && Ascends(batch, bookings)
    ensures |Ids(skipped)| == |skipped| && |all - Ids(skipped)| == |batch| + |behind|
  {
    CutAscending(skipped, batch + behind, bookings);
    CutAscending(batch, behind, bookings);
    SetOfDistinct(skipped);
    SetOfDistinct(batch + behind);
    assert forall id | id in skipped :: id in skipped + (batch + behind);
    assert forall id | id in batch :: id in batch + behind;
  }

  /** The window over the listing is what the query promises. */
  lemma QueryIsRight(order: seq<BookingId>, bookings: map<BookingId, Booking>, now: Millis, skip: nat, take: nat)
    requires IsDeadlineOrder(order, bookings)
    ensures var e := Expirable(order, bookings, now);
            Selects(Window(e, skip, take), Ids(Skipped(e, skip)), bookings, now, skip, take)
  {
    var e := Expirable(order, bookings, now);
    var k, n := Min(skip, |e|), |Window(e, skip, take)|;
    WindowSplits(e, skip, take);
    ExpirableAscends(order, bookings, now);
    ExpirableDistinct(order, bookings, now);
    ExpirableIds(order, bookings, now);
    ThreeParts(e[..k], e[k..k + n], e[k + n..], bookings, ExpiredBookings(bookings, now));
  }

  // ---------- What a run of the loop leaves ----------

  /** The given bookings are the `offset` oldest of those first expirable, and still are expirable. */
  ghost predicate KeepsTheOldest(first: map<BookingId, Booking>, bookings: map<BookingId, Booking>, now: Millis,
                                 offset: nat, kept: set<BookingId>)
  {
    var all := ExpiredBookings(first, now);
    && kept <= all && kept <= ExpiredBookings(bookings, now)
    && |kept| == Min(offset, |all|)
    && NoLater(kept, all - kept, first)
  }

  /** Some such bookings there are. */
  ghost predicate LeavesTheOldest(first: map<BookingId, Booking>, bookings: map<BookingId, Booking>, now: Millis,
                                  offset: nat)
  {
    exists kept :: KeepsTheOldest(first, bookings, now, offset, kept)
  }

  /** Whatever fails, and however often the loop goes round: it never gets to the oldest. */
  lemma OldestAreKept(order: seq<BookingId>, first: map<BookingId, Booking>, bookings: map<BookingId, Booking>,
                      now: Millis, offset: nat, size: nat, outcome: Outcomes, rounds: nat)
    requires IsDeadlineOrder(order, first)
    requires Expirable(order, bookings, now)
          == LoopRun(Init(Expirable(order, first, now)), offset, size, outcome, rounds).pending
    ensures KeepsTheOldest(first, bookings, now, offset, Ids(Skipped(Expirable(order, first, now), offset)))
  {
    var pending, left := Expirable(order, first, now), Expirable(order, bookings, now);
    QueryIsRight(order, first, now, offset, 0);
    RunSkips(pending, offset, size, outcome, rounds);
    ExpirableMember(order, bookings, now);
    forall id | id in Skipped(pending, offset)
      ensures id in ExpiredBookings(bookings, now)
    {
      assert id in Skipped(left, offset) && id in left;
    }
  }

  /** Without failures the bookings left to expire are exactly those. */
  lemma OnlyTheOldestStay(order: seq<BookingId>, first: map<BookingId, Booking>, bookings: map<BookingId, Booking>,
                          now: Millis, offset: nat, size: nat, outcome: Outcomes)
    requires IsDeadlineOrder(order, first) && IsDeadlineOrder(order, bookings) && size > 0
    requires forall page, id :: outcome(page, id) == Succeeded
    requires Expirable(order, bookings, now) == RunToEnd(Expirable(order, first, now), offset, size, outcome).pending
    ensures KeepsTheOldest(first, bookings, now, offset, ExpiredBookings(bookings, now))
  {
    var pending := Expirable(order, first, now);
    OldestAreKept(order, first, bookings, now, offset, size, outcome, |pending| + 1);
    FailureFreeRun(pending, offset, size, outcome, |pending| + 1);
    ExpirableIds(order, bookings, now);
  }
}
