/**
 What a booking can live through. Over any run, through every route that writes the tables: its
 status only moves down, at most three times; its deadline, car and customer never change; and it
 becomes a contract at most once, before its deadline.
 */
module Lifecycle {
  import opened Wrappers
  import opened Rental
  import opened Reservations
  import opened Calendar

  function Rank(status: BookingStatus): nat {
    match status
    case Pending => 3
    case Confirmed => 2
    case Expired => 1
    case Cancelled => 0
    case Converted => 0
  }

  // ---------- One call ----------

  /** The transition table, pair by pair. */
  predicate TableAllows(before: BookingStatus, after: BookingStatus) {
    (before, after) in {
      (Pending, Confirmed), (Pending, Cancelled), (Pending, Expired),
      (Confirmed, Cancelled), (Confirmed, Converted), (Confirmed, Expired)}
  }

  /** The status moves that some route allows: the transition table, and cancelling an expired booking. */
  predicate AllowedMove(before: BookingStatus, after: BookingStatus) {
    TableAllows(before, after) || (before == Expired && after == Cancelled)
  }

  /** The check of `update` is that table: a raw status is accepted for its six pairs and no other. */
  lemma StatusUpdatesExactly(st: Store, id: BookingId, status: BookingStatus, user: UserId, now: Millis)
    requires id in st.bookings
    ensures UpdateBooking(st, id, NO_CHANGE.(status := Some(status)), user, now).Ok? <==>
            TableAllows(st.bookings[id].status, status)
  {
  }

  /** The later version of a booking: its rank fell unless its status is the same, and its identity is kept. */
  predicate Descends(b: Booking, later: Booking) {
    (later.status == b.status || Rank(later.status) < Rank(b.status)) && SameBooking(b, later)
  }

  /** What no call ever rewrites. */
  predicate SameBooking(b: Booking, later: Booking) {
    && later.expiresAt == b.expiresAt && later.carId == b.carId
    && later.customerId == b.customerId && later.createdBy == b.createdBy
  }

  lemma UpdateWrites(st: Store, id: BookingId, data: BookingPatch, user: UserId, now: Millis)
    requires UpdateBooking(st, id, data, user, now).Ok?
    ensures var after := UpdateBooking(st, id, data, user, now).value.store;
            && after == st.(bookings := after.bookings) && id in after.bookings
            && var b, b' := st.bookings[id], after.bookings[id];
               && b'.status == data.status.GetOr(b.status) && b'.depositPaid == data.depositPaid.GetOr(b.depositPaid)
               && (b'.status == b.status || TableAllows(b.status, b'.status))
               && SameBooking(b, b')
  {
  }

  /** A booking after a call: the same if the call is not about it, updated if there is an update behind it. */
  lemma RowAfter(st: Store, call: Call, now: Millis, id: BookingId)
    requires id in st.bookings && id in After(st, call, now).bookings
    ensures id !in Touched(st, call, now) ==> After(st, call, now).bookings[id] == st.bookings[id]
    ensures id in Touched(st, call, now) && UpdateBehind(call).Some? && Perform(st, call, now).Ok? ==>
              && var after, data := After(st, call, now), UpdateBehind(call).value;
                 && after == st.(bookings := after.bookings)
                 && var b, b' := st.bookings[id], after.bookings[id];
                    && b'.status == data.status.GetOr(b.status)
                    && b'.depositPaid == data.depositPaid.GetOr(b.depositPaid)
                    && (b'.status == b.status || TableAllows(b.status, b'.status))
                    && SameBooking(b, b')
  {
    if id !in Touched(st, call, now) {
      OthersAreUntouched(st, call, now, id);
    } else if UpdateBehind(call).Some? && Perform(st, call, now).Ok? {
      UpdateWrites(st, id, UpdateBehind(call).value, call.user, now);
    }
  }

  lemma StatusMovesDown(st: Store, call: Call, now: Millis, id: BookingId)
    requires id in st.bookings && id in After(st, call, now).bookings
    requires FreshIds(st)
    ensures var b, b' := st.bookings[id], After(st, call, now).bookings[id];
            b'.status == b.status || AllowedMove(b.status, b'.status)
  {
    RowAfter(st, call, now, id);
  }

  lemma IdentityStays(st: Store, call: Call, now: Millis, id: BookingId)
    requires id in st.bookings && id in After(st, call, now).bookings
    requires FreshIds(st)
    ensures SameBooking(st.bookings[id], After(st, call, now).bookings[id])
  {
    RowAfter(st, call, now, id);
  }

  /** A call leaves a booking's status or lowers its rank by an allowed move; its identity stays. */
  lemma OneCallMovesDown(st: Store, call: Call, now: Millis, id: BookingId)
    requires id in st.bookings && id in After(st, call, now).bookings
    requires FreshIds(st)
    ensures var b, b' := st.bookings[id], After(st, call, now).bookings[id];
            && (b'.status == b.status || AllowedMove(b.status, b'.status))
            && Descends(b, b')
  {
    StatusMovesDown(st, call, now, id);
    IdentityStays(st, call, now, id);
  }

  /** A status change obeys the transition table unless it is the cancelling of an expired booking. */
  lemma TableIsObeyedExactly(st: Store, call: Call, now: Millis, id: BookingId)
    requires FreshIds(st)
    requires id in st.bookings && id in After(st, call, now).bookings
    requires st.bookings[id].status != After(st, call, now).bookings[id].status
    ensures TableAllows(st.bookings[id].status, After(st, call, now).bookings[id].status) <==>
            !(call.Cancel? && st.bookings[id].status == Expired)
  {
    RowAfter(st, call, now, id);
  }

  /** Rows appear only through `create`, as the next fresh identifier, pending and unpaid. */
  lemma RowsAppearPending(st: Store, call: Call, now: Millis, id: BookingId)
    requires id !in st.bookings && id in After(st, call, now).bookings
    ensures call.Create? && id == st.nextBooking && After(st, call, now).nextBooking == id + 1
    ensures After(st, call, now).bookings[id].status == Pending && !After(st, call, now).bookings[id].depositPaid
  {
  }

  lemma IdentifiersOnlyGrow(st: Store, call: Call, now: Millis)
    ensures st.nextBooking <= After(st, call, now).nextBooking
  {
  }

  // ---------- Runs ----------

  /** The status of a booking that is absent: still to come, or deleted for good. */
  function Budget(st: Store, id: BookingId): nat {
    if id in st.bookings then Rank(st.bookings[id].status)
    else if id < st.nextBooking then 0
    else 3
  }

  function StatusChanged(before: Store, after: Store, id: BookingId): bool {
    id in before.bookings && id in after.bookings && before.bookings[id].status != after.bookings[id].status
  }

  /** How often the status of a booking changes in a run. */
  function Changes(st: Store, events: seq<Event>, id: BookingId): nat {
    if events == [] then 0
    else
      var early := events[..|events| - 1];
      Changes(st, early, id) + if StatusChanged(Run(st, early), Run(st, events), id) then 1 else 0
  }

  lemma {:induction false} ChangesAreBudgeted(st: Store, events: seq<Event>, id: BookingId)
    requires Inv(st)
    ensures Changes(st, events, id) + Budget(Run(st, events), id) <= Budget(st, id)
  {
    if events == [] {
    } else {
      var early, last := events[..|events| - 1], events[|events| - 1];
      var mid := Run(st, early);
      ChangesAreBudgeted(st, early, id);
      RunKeepsInv(st, early);
      IdentifiersOnlyGrow(mid, last.call, last.now);
      if id in Run(st, events).bookings {
        if id in mid.bookings {
          OneCallMovesDown(mid, last.call, last.now, id);
        } else {
          RowsAppearPending(mid, last.call, last.now, id);
        }
      }
    }
  }

  /** No booking changes its status more than three times. */
  lemma AtMostThreeChanges(st: Store, events: seq<Event>, id: BookingId)
    requires Inv(st)
    ensures Changes(st, events, id) <= 3
  {
    ChangesAreBudgeted(st, events, id);
  }

  lemma RunExtends(st: Store, events: seq<Event>, i: nat)
    requires i < |events|
    ensures Run(st, events[..i + 1]) == After(Run(st, events[..i]), events[i].call, events[i].now)
  {
    assert events[..i + 1][..i] == events[..i];
  }

  lemma KeptInLastStep(st: Store, events: seq<Event>, j: nat, id: BookingId)
    requires Inv(st) && 0 < j <= |events|
    requires id < Run(st, events[..j - 1]).nextBooking && id in Run(st, events[..j]).bookings
    ensures id in Run(st, events[..j - 1]).bookings
    ensures Descends(Run(st, events[..j - 1]).bookings[id], Run(st, events[..j]).bookings[id])
  {
    RunExtends(st, events, j - 1);
    RunKeepsInv(st, events[..j - 1]);
    PresentBefore(Run(st, events[..j - 1]), events[j - 1], id);
  }

  lemma DescendsOnward(b: Booking, later: Booking, latest: Booking)
    requires Descends(b, later) && Descends(later, latest)
    ensures Descends(b, latest)
  {
  }

  /** A booking present at a moment, if its identifier was already given out earlier, was present then. */
  lemma {:induction false} KeptOverTime(st: Store, events: seq<Event>, i: nat, j: nat, id: BookingId)
    requires Inv(st) && i <= j <= |events|
    requires id < Run(st, events[..i]).nextBooking && id in Run(st, events[..j]).bookings
    ensures id in Run(st, events[..i]).bookings
    ensures Descends(Run(st, events[..i]).bookings[id], Run(st, events[..j]).bookings[id])
    decreases j
  {
    if i < j {
      NextBookingGrows(st, events, i, j - 1);
      KeptInLastStep(st, events, j, id);
      KeptOverTime(st, events, i, j - 1, id);
      DescendsOnward(Run(st, events[..i]).bookings[id], Run(st, events[..j - 1]).bookings[id],
                     Run(st, events[..j]).bookings[id]);
    }
  }

  lemma PresentBefore(st: Store, event: Event, id: BookingId)
    requires FreshIds(st) && id < st.nextBooking && id in After(st, event.call, event.now).bookings
    ensures id in st.bookings
    ensures Descends(st.bookings[id], After(st, event.call, event.now).bookings[id])
  {
    if id in st.bookings {
      OneCallMovesDown(st, event.call, event.now, id);
    } else {
      RowsAppearPending(st, event.call, event.now, id);
    }
  }

  lemma {:induction false} NextBookingGrows(st: Store, events: seq<Event>, i: nat, j: nat)
    requires i <= j <= |events|
    ensures Run(st, events[..i]).nextBooking <= Run(st, events[..j]).nextBooking
    decreases j
  {
    if i < j {
      NextBookingGrows(st, events, i, j - 1);
      RunExtends(st, events, j - 1);
      IdentifiersOnlyGrow(Run(st, events[..j - 1]), events[j - 1].call, events[j - 1].now);
    }
  }

  /** Once out of {pending, confirmed} a booking never returns there; cancelled and converted are final. */
  lemma NoWayBack(st: Store, events: seq<Event>, i: nat, j: nat, id: BookingId)
    requires Inv(st) && i <= j <= |events|
    requires id in Run(st, events[..i]).bookings && id in Run(st, events[..j]).bookings
    ensures var before, after := Run(st, events[..i]).bookings[id].status, Run(st, events[..j]).bookings[id].status;
            && (!Active(before) ==> !Active(after))
            && (before == Cancelled || before == Converted ==> after == before)
  {
    RunKeepsInv(st, events[..i]);
    KeptOverTime(st, events, i, j, id);
  }

  /** The status of a booking at a moment of a run, if it is there. */
  function StatusAt(st: Store, events: seq<Event>, k: nat, id: BookingId): Option<BookingStatus>
    requires k <= |events|
  {
    var bookings := Run(st, events[..k]).bookings;
    if id in bookings then Some(bookings[id].status) else None
  }

  /** At every step of a run a booking keeps its status, moves by a pair of the table, or is cancelled when expired. */
  lemma TableHoldsThroughout(st: Store, events: seq<Event>, k: nat, id: BookingId)
    requires Inv(st) && k < |events|
    requires StatusAt(st, events, k, id).Some? && StatusAt(st, events, k + 1, id).Some?
    ensures var before, after := StatusAt(st, events, k, id).value, StatusAt(st, events, k + 1, id).value;
            || before == after || TableAllows(before, after)
            || (before == Expired && after == Cancelled && events[k].call.Cancel?)
  {
    RunKeepsInv(st, events[..k]);
    RunExtends(st, events, k);
    OneCallMovesDown(Run(st, events[..k]), events[k].call, events[k].now, id);
    if StatusAt(st, events, k, id) != StatusAt(st, events, k + 1, id) {
      TableIsObeyedExactly(Run(st, events[..k]), events[k].call, events[k].now, id);
    }
  }

  lemma ReachedInOneStep(st: Store, events: seq<Event>, k: nat, id: BookingId, status: BookingStatus)
    requires Inv(st) && (status == Converted || status == Confirmed) && k < |events|
    requires StatusAt(st, events, k + 1, id) == Some(status) && StatusAt(st, events, k, id) != Some(status)
    ensures StatusAt(st, events, k, id) == Some(if status == Converted then Confirmed else Pending)
  {
    if StatusAt(st, events, k, id).Some? {
      TableHoldsThroughout(st, events, k, id);
    } else {
      RunExtends(st, events, k);
      RowsAppearPending(Run(st, events[..k]), events[k].call, events[k].now, id);
    }
  }

  /**
   Nothing is converted that was not confirmed just before, and nothing is confirmed that was not pending:
   for a booking that reached the status within n steps, there is the step at which it did.
   */
  lemma {:induction false} ReachedFrom(st: Store, events: seq<Event>, n: nat, id: BookingId, status: BookingStatus)
    requires Inv(st) && (status == Converted || status == Confirmed) && n <= |events|
    requires StatusAt(st, events, n, id) == Some(status) && StatusAt(st, events, 0, id) != Some(status)
    ensures exists k | 0 <= k < n ::
              && StatusAt(st, events, k, id) == Some(if status == Converted then Confirmed else Pending)
              && StatusAt(st, events, k + 1, id) == Some(status)
    decreases n
  {
    if n > 0 {
      if StatusAt(st, events, n - 1, id) == Some(status) {
        ReachedFrom(st, events, n - 1, id, status);
      } else {
        ReachedInOneStep(st, events, n - 1, id, status);
      }
    }
  }

  // ---------- Deadlines ----------

  predicate Succeeds(st: Store, events: seq<Event>, i: nat)
    requires i < |events|
  {
    Perform(Run(st, events[..i]), events[i].call, events[i].now).Ok?
  }

  /** The booking that a call confirms with its deposit, or converts. */
  predicate ConfirmsOrConverts(call: Call, id: BookingId) {
    (call.Confirm? && call.id == id) || (call.Convert? && call.id == id)
  }

  /**
   A booking created by event i and confirmed or converted by event j: the latter happens no later
   than seven days after the creation and no later than 24 hours before the start first asked for,
   whatever happened to its dates in between.
   */
  lemma DeadlineHolds(st: Store, events: seq<Event>, i: nat, j: nat)
    requires Inv(st) && i < j < |events|
    requires events[i].call.Create? && Succeeds(st, events, i)
    requires ConfirmsOrConverts(events[j].call, Run(st, events[..i]).nextBooking) && Succeeds(st, events, j)
    ensures events[j].now <= events[i].now + 7 * MILLIS_PER_DAY
    ensures events[i].call.data.startDate.Instant?
    ensures events[j].now <= events[i].call.data.startDate.at - MILLIS_PER_DAY
  {
    var id := Run(st, events[..i]).nextBooking;
    RunExtends(st, events, i);
    assert id in Run(st, events[..j]).bookings;
    KeptOverTime(st, events, i + 1, j, id);
    DeadlineIsTheSoonerLimit(events[i].call.data.startDate.at, events[i].now, events[j].now);
  }

  /** No booking is converted twice. */
  lemma ConvertedOnce(st: Store, events: seq<Event>, i: nat, j: nat, id: BookingId)
    requires Inv(st) && i < |events| && j < |events|
    requires events[i].call.Convert? && events[i].call.id == id && Succeeds(st, events, i)
    requires events[j].call.Convert? && events[j].call.id == id && Succeeds(st, events, j)
    ensures i == j
  {
    if i != j {
      var a, b := if i < j then i else j, if i < j then j else i;
      RunExtends(st, events, a);
      assert Run(st, events[..a + 1]).bookings[id].status == Converted;
      NoWayBack(st, events, a + 1, b, id);
      assert false;
    }
  }

  // ---------- Status writes that skip a rule ----------

  /**
   The documented rule that only paid bookings get confirmed holds for `confirmBooking`; a call that
   moves a booking to confirmed breaks it exactly when it is an `update` whose merged deposit flag is off.
   */
  lemma ConfirmedUnpaidExactly(st: Store, call: Call, now: Millis, id: BookingId)
    requires FreshIds(st)
    requires id in st.bookings && st.bookings[id].status != Confirmed
    requires id in After(st, call, now).bookings && After(st, call, now).bookings[id].status == Confirmed
    ensures !After(st, call, now).bookings[id].depositPaid <==>
            call.Update? && !call.patch.depositPaid.GetOr(st.bookings[id].depositPaid)
  {
    RowAfter(st, call, now, id);
  }

  /** A raw status update converts a booking without making a contract; conversion proper always makes one. */
  lemma ConvertedWithoutContractExactly(st: Store, call: Call, now: Millis, id: BookingId)
    requires FreshIds(st)
    requires id in st.bookings && st.bookings[id].status != Converted
    requires id in After(st, call, now).bookings && After(st, call, now).bookings[id].status == Converted
    ensures After(st, call, now).contracts == st.contracts <==> call.Update?
    ensures call.Convert? ==>
              && After(st, call, now).bookings[id].convertedToContractId == Some(st.nextContract)
              && After(st, call, now).contracts.Keys == st.contracts.Keys + {st.nextContract}
  {
    RowAfter(st, call, now, id);
  }
}
