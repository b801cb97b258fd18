/**
 What single calls promise: exactly when they are accepted, what a converted booking leaves behind,
 and what a stored price means.
 */
module Conversion {
  import opened Wrappers
  import opened Rental
  import opened Reservations
  import opened Calendar
  import opened Lifecycle

  // ---------- Conversion conserves occupancy ----------

  /** How many active bookings and contracts cover a car on a day. */
  function Coverage(st: Store, carId: CarId, day: Day): nat {
    |Occupants(st.bookings, carId, day)| + |ContractOccupants(st.contracts, carId, day)|
  }

  /** Moving days: a booking that stops being active while a fresh contract takes over its car and days. */
  lemma CoverageMoves(st: Store, id: BookingId, b: Booking, contractId: ContractId, c: Contract, carId: CarId, day: Day)
    requires id in st.bookings && Active(st.bookings[id].status) && !Active(b.status) && contractId !in st.contracts
    requires c.carId == st.bookings[id].carId
    requires c.startDay == st.bookings[id].startDay && c.endDay == st.bookings[id].endDay
    ensures |Occupants(st.bookings[id := b], carId, day)|
         + |ContractOccupants(st.contracts[contractId := c], carId, day)|
         == Coverage(st, carId, day)
  {
    BookingLeaves(st.bookings, id, b, carId, day);
    ContractArrives(st.contracts, contractId, c, carId, day);
  }

  lemma BookingLeaves(bookings: map<BookingId, Booking>, id: BookingId, b: Booking, carId: CarId, day: Day)
    requires id in bookings && !Active(b.status)
    ensures |Occupants(bookings[id := b], carId, day)|
         == |Occupants(bookings, carId, day)| - if Covers(bookings[id], carId, day) then 1 else 0
  {
    assert Occupants(bookings[id := b], carId, day) == Occupants(bookings, carId, day) - {id};
    assert id in Occupants(bookings, carId, day) <==> Covers(bookings[id], carId, day);
  }

  lemma AddedContract(contracts: map<ContractId, Contract>, id: ContractId, c: Contract, carId: CarId, day: Day)
    requires id !in contracts
    ensures ContractOccupants(contracts[id := c], carId, day)
         == ContractOccupants(contracts, carId, day)
            + if c.carId == carId && c.startDay <= day <= c.endDay then {id} else {}
  {
  }

  lemma ContractArrives(contracts: map<ContractId, Contract>, id: ContractId, c: Contract, carId: CarId, day: Day)
    requires id !in contracts
    ensures |ContractOccupants(contracts[id := c], carId, day)|
         == |ContractOccupants(contracts, carId, day)|
          + if c.carId == carId && c.startDay <= day <= c.endDay then 1 else 0
  {
    AddedContract(contracts, id, c, carId, day);
    assert id !in ContractOccupants(contracts, carId, day);
  }

  /** The contract has the booking's car, customer, days and total, and the booking points to it; nothing else moves. */
  lemma ConversionMakesTheContract(st: Store, id: BookingId, user: UserId, now: Millis)
    requires Inv(st) && ConvertToContract(st, id, user, now).Ok?
    ensures var done := ConvertToContract(st, id, user, now).value;
            && id in st.bookings && st.bookings[id].status == Confirmed
            && done.id !in st.contracts && done.id in done.store.contracts
            && var b, c := st.bookings[id], done.store.contracts[done.id];
               && c.carId == b.carId && Some(c.customerId) == b.customerId
               && c.startDay == b.startDay && c.endDay == b.endDay && c.totalAmount == b.totalEstimatedCost
               && b.carId in st.cars && c.dailyRate == st.cars[b.carId].pricePerDay
               && done.store.contracts == st.contracts[done.id := c]
               && done.store.bookings == st.bookings[id := b.(status := Converted,
                    convertedToContractId := Some(done.id), convertedAt := Some(now), updatedBy := Some(user))]
  {
  }

  /**
   Converting a booking moves its days from one calendar to the other: no car and day is covered more
   or less often than before.
   */
  lemma ConversionConservesOccupancy(st: Store, id: BookingId, user: UserId, now: Millis, carId: CarId, day: Day)
    requires Inv(st) && ConvertToContract(st, id, user, now).Ok?
    ensures Coverage(ConvertToContract(st, id, user, now).value.store, carId, day) == Coverage(st, carId, day)
  {
    var done := ConvertToContract(st, id, user, now).value;
    ConversionMakesTheContract(st, id, user, now);
    CoverageMoves(st, id, done.store.bookings[id], done.id, done.store.contracts[done.id], carId, day);
  }

  /** A booking is converted exactly when it is confirmed, paid, in time, and its car and customer are there. */
  lemma ConvertsExactlyWhen(st: Store, id: BookingId, user: UserId, now: Millis)
    requires Inv(st)
    ensures ConvertToContract(st, id, user, now).Ok? <==>
            && id in st.bookings
            && var b := st.bookings[id];
               && b.status == Confirmed && b.depositPaid && now <= b.expiresAt
               && b.carId in st.cars && !st.cars[b.carId].isDeleted
               && b.customerId.Some? && b.customerId.value in st.customers
               && (forall day | b.startDay <= day <= b.endDay :: ContractOccupants(st.contracts, b.carId, day) == {})
               && (forall c | c in st.contracts :: !Straddles(st.contracts[c], b.carId, b.startDay, b.endDay))
  {
    if id in st.bookings {
      var b := st.bookings[id];
      ContractQueryExactly(st.contracts, b.carId, b.startDay, b.endDay, None);
    }
  }

  // ---------- Accepted exactly when ----------

  /** A booking is created exactly when the car is there and available, the dates are valid and every day is free. */
  lemma CreatesExactlyWhen(st: Store, data: BookingRequest, user: UserId, now: Millis)
    requires Inv(st)
    ensures CreateBooking(st, data, user, now).Ok? <==>
            && data.carId in st.cars && st.cars[data.carId].status == Available
            && data.startDate.Instant? && data.endDate.Instant?
            && var start, end := data.startDate.at, data.endDate.at;
               && Midnight(DayOf(now)) <= start < end <= start + MAX_RENTAL_DAYS * MILLIS_PER_DAY
               && forall day | DayOf(start) <= day <= DayOf(end) :: Occupants(st.bookings, data.carId, day) == {}
  {
    if data.startDate.Instant? && data.endDate.Instant? {
      ValidDatesExactly(data.startDate.at, data.endDate.at, now);
      if DayOf(data.startDate.at) <= DayOf(data.endDate.at) {
        AvailableIffEveryDayIsFree(st.bookings, data.carId, DayOf(data.startDate.at), DayOf(data.endDate.at), None);
      }
    }
  }

  /** A date that is not sent stays the midnight of the stored day. */
  lemma MergedDates(b: Booking, data: BookingPatch)
    ensures MergedStart(b, data) == if data.startDate.Some? then data.startDate.value else Instant(Midnight(b.startDay))
    ensures MergedEnd(b, data) == if data.endDate.Some? then data.endDate.value else Instant(Midnight(b.endDay))
  {
  }

  /** New dates are accepted exactly when they are valid and no other booking holds one of the days. */
  lemma ReschedulesExactlyWhen(st: Store, id: BookingId, data: BookingPatch, user: UserId, now: Millis)
    requires Inv(st) && id in st.bookings
    requires data.startDate.Some? || data.endDate.Some?
    ensures UpdateBooking(st, id, data, user, now).Ok? <==>
            && var b := st.bookings[id];
               && (data.status.None? || TableAllows(b.status, data.status.value))
               && MergedStart(b, data).Instant? && MergedEnd(b, data).Instant?
               && var start, end := MergedStart(b, data).at, MergedEnd(b, data).at;
                  && Midnight(DayOf(now)) <= start < end <= start + MAX_RENTAL_DAYS * MILLIS_PER_DAY
                  && forall day | DayOf(start) <= day <= DayOf(end) :: Occupants(st.bookings, b.carId, day) <= {id}
    ensures UpdateBooking(st, id, data, user, now).Ok? ==>
              && var b, b' := st.bookings[id], UpdateBooking(st, id, data, user, now).value.store.bookings[id];
                 && b'.startDay == DayOf(MergedStart(b, data).at) && b'.endDay == DayOf(MergedEnd(b, data).at)
  {
    var b := st.bookings[id];
    if MergedStart(b, data).Instant? && MergedEnd(b, data).Instant? {
      var start, end := MergedStart(b, data).at, MergedEnd(b, data).at;
      ValidDatesExactly(start, end, now);
      if DayOf(start) <= DayOf(end) {
        AvailableIffEveryDayIsFree(st.bookings, b.carId, DayOf(start), DayOf(end), Some(id));
      }
    }
  }

  lemma ConfirmsExactlyWhen(st: Store, id: BookingId, user: UserId, now: Millis)
    ensures ConfirmBooking(st, id, user, now).Ok? <==>
            && id in st.bookings && st.bookings[id].status == Pending
            && st.bookings[id].depositPaid && now <= st.bookings[id].expiresAt
    ensures ConfirmBooking(st, id, user, now).Ok? ==>
              ConfirmBooking(st, id, user, now).value.store
              == st.(bookings := st.bookings[id := st.bookings[id].(status := Confirmed, updatedBy := Some(user))])
  {
  }

  predicate AllSpaces(s: string) {
    forall i | 0 <= i < |s| :: IsSpace(s[i])
  }

  lemma SpacesAround(space: char, before: string, core: string, behind: string)
    requires IsSpace(space) && AllSpaces(before) && AllSpaces(behind)
    ensures AllSpaces([space] + before) && [space] + (before + core + behind) == ([space] + before) + core + behind
    ensures AllSpaces(behind + [space]) && (before + core + behind) + [space] == before + core + (behind + [space])
  {
  }

  lemma {:induction false} TrimmedEnds(s: string)
    ensures Trim(s) != "" ==> !IsSpace(Trim(s)[0]) && !IsSpace(Trim(s)[|Trim(s)| - 1])
  {
    if s == "" {
    } else if IsSpace(s[0]) {
      TrimmedEnds(s[1..]);
    } else if IsSpace(s[|s| - 1]) {
      TrimmedEnds(s[..|s| - 1]);
    }
  }

  lemma {:induction false} TrimTakesSpaces(s: string) returns (before: string, behind: string)
    ensures s == before + Trim(s) + behind && AllSpaces(before) && AllSpaces(behind)
  {
    before, behind := "", "";
    if s == "" {
    } else if IsSpace(s[0]) {
      before, behind := TrimTakesSpaces(s[1..]);
      assert s == [s[0]] + s[1..];
      SpacesAround(s[0], before, Trim(s[1..]), behind);
      before := [s[0]] + before;
    } else if IsSpace(s[|s| - 1]) {
      before, behind := TrimTakesSpaces(s[..|s| - 1]);
      assert s == s[..|s| - 1] + [s[|s| - 1]];
      SpacesAround(s[|s| - 1], before, Trim(s[..|s| - 1]), behind);
      behind := behind + [s[|s| - 1]];
    }
  }

  /** Text is its trimmed core between spaces, and the core neither starts nor ends with one. */
  lemma TrimIsTheCore(s: string) returns (before: string, behind: string)
    ensures s == before + Trim(s) + behind && AllSpaces(before) && AllSpaces(behind)
    ensures Trim(s) != "" ==> !IsSpace(Trim(s)[0]) && !IsSpace(Trim(s)[|Trim(s)| - 1])
  {
    before, behind := TrimTakesSpaces(s);
    TrimmedEnds(s);
  }

  /** Cancelling takes ten characters between spaces and a booking that is neither cancelled nor converted. */
  lemma CancelsExactlyWhen(st: Store, id: BookingId, reason: string, user: UserId, now: Millis)
    ensures CancelBooking(st, id, reason, user, now).Ok? <==>
            |Trim(reason)| >= 10 && id in st.bookings && st.bookings[id].status in {Pending, Confirmed, Expired}
    ensures CancelBooking(st, id, reason, user, now).Ok? ==>
              CancelBooking(st, id, reason, user, now).value.store
              == st.(bookings := st.bookings[id := st.bookings[id].(status := Cancelled, cancelledAt := Some(now),
                   cancellationReason := Some(reason), updatedBy := Some(user))])
  {
  }

  /** The three ways to expire: by hand at any time, in bulk and by the scheduler only past the deadline. */
  lemma ExpiresExactlyWhen(st: Store, id: BookingId, user: UserId, now: Millis)
    requires id in st.bookings
    ensures ExpireBooking(st, id, user, now).Ok? <==> Active(st.bookings[id].status)
    ensures SchedulerExpire(st, id, now).Ok? <==> Active(st.bookings[id].status) && st.bookings[id].expiresAt < now
    ensures var bulk := ExpireBookings(st, now, NoFault).0;
            && id in bulk.bookings
            && (if Active(st.bookings[id].status) && st.bookings[id].expiresAt < now
                then bulk.bookings[id] == st.bookings[id].(status := Expired, updatedBy := Some(SYSTEM))
                else bulk.bookings[id] == st.bookings[id])
    ensures ExpireBooking(st, id, user, now).Ok? ==>
              ExpireBooking(st, id, user, now).value.store
              == st.(bookings := st.bookings[id := st.bookings[id].(status := Expired, updatedBy := Some(user))])
    ensures SchedulerExpire(st, id, now).Ok? ==>
              && var after := SchedulerExpire(st, id, now).value.store;
                 after == st.(bookings := st.bookings[id := st.bookings[id].(status := Expired)], cars := after.cars)
  {
  }

  /** The calls that end one active booking. */
  predicate Ends(call: Call, id: BookingId) {
    (call.Cancel? || call.Expire? || call.ExpireScheduled? || call.Convert? || call.Delete?) && call.id == id
  }

  /** Ending a booking gives back its own days and no others, by whichever call. */
  lemma EndingReleasesItsDays(st: Store, call: Call, now: Millis, id: BookingId, carId: CarId, day: Day)
    requires Inv(st) && Ends(call, id) && Perform(st, call, now).Ok?
    ensures Occupants(After(st, call, now).bookings, carId, day) == Occupants(st.bookings, carId, day) - {id}
  {
    var after := After(st, call, now);
    forall other | other != id
      ensures other in Occupants(after.bookings, carId, day) <==> other in Occupants(st.bookings, carId, day)
    {
      OthersAreUntouched(st, call, now, other);
    }
  }

  /** Confirming moves no days: who holds which car on which day stays as it was. */
  lemma ConfirmingMovesNoDays(st: Store, id: BookingId, user: UserId, now: Millis, carId: CarId, day: Day)
    requires ConfirmBooking(st, id, user, now).Ok?
    ensures Occupants(ConfirmBooking(st, id, user, now).value.store.bookings, carId, day)
         == Occupants(st.bookings, carId, day)
  {
  }

  /** A request refused only because of one booking is accepted once that booking has been ended. */
  lemma EndedDaysCanBeBooked(st: Store, call: Call, now: Millis, id: BookingId, data: BookingRequest, user: UserId)
    requires Inv(st) && Ends(call, id) && Perform(st, call, now).Ok?
    requires CreateBooking(st, data, user, now) == Err(Conflict(1)) && data.startDate.Instant? && data.endDate.Instant?
    requires id in ConflictingBookings(st.bookings, data.carId, DayOf(data.startDate.at), DayOf(data.endDate.at), None)
    ensures CreateBooking(After(st, call, now), data, user, now).Ok?
  {
    var after := After(st, call, now);
    var start, end := DayOf(data.startDate.at), DayOf(data.endDate.at);
    var conflicts := ConflictingBookings(st.bookings, data.carId, start, end, None);
    OnlyMember(conflicts, id);
    forall day | start <= day <= end
      ensures Occupants(after.bookings, data.carId, day) == {}
    {
      EndingReleasesItsDays(st, call, now, id, data.carId, day);
      assert Occupants(st.bookings, data.carId, day) <= conflicts;
    }
    CallKeepsInv(st, call, now);
    CreatesExactlyWhen(after, data, user, now);
    ValidDatesExactly(data.startDate.at, data.endDate.at, now);
    CarsStayAvailable(st, call, now, data.carId);
  }

  lemma OnlyMember<T>(s: set<T>, x: T)
    requires x in s && |s| == 1
    ensures s == {x}
  {
    assert |s - {x}| == 0;
  }

  /** No ending makes an available car unavailable. */
  lemma CarsStayAvailable(st: Store, call: Call, now: Millis, carId: CarId)
    requires carId in st.cars && st.cars[carId].status == Available
    requires call.Cancel? || call.Expire? || call.ExpireScheduled? || call.Convert? || call.Delete?
    ensures carId in After(st, call, now).cars && After(st, call, now).cars[carId].status == Available
  {
  }

  /** The report of a bulk expiry against what happened to the rows: what it wrote, and what it failed to write. */
  ghost predicate ReportIsTrue(st: Store, after: Store, report: ExpireReport, now: Millis) {
    var changed := set id | id in st.bookings && id in after.bookings && st.bookings[id] != after.bookings[id];
    && report.bookings == changed && report.expired == |changed|
    && report.failed == |ExpiredBookings(st.bookings, now)| - |changed|
  }

  /**
   The report is true exactly when the search and the reading back succeed, or there is nothing to
   expire. When the rows cannot be read back they have been written, and are reported as failed.
   */
  lemma ReportIsTrueExactly(st: Store, now: Millis, fault: Fault)
    ensures var (after, report) := ExpireBookings(st, now, fault);
            ReportIsTrue(st, after, report, now) <==>
            fault == NoFault || fault == BulkFails || ExpiredBookings(st.bookings, now) == {}
  {
    var ids := ExpiredBookings(st.bookings, now);
    var (after, report) := ExpireBookings(st, now, fault);
    var changed := set id | id in st.bookings && id in after.bookings && st.bookings[id] != after.bookings[id];
    assert changed == if fault == NoFault || fault == RefetchFails then ids else {};
  }

  /** After a bulk expiry without faults nothing is left to expire, and doing it again changes nothing. */
  lemma BulkExpiryIsComplete(st: Store, now: Millis)
    ensures var after := ExpireBookings(st, now, NoFault).0;
            && ExpiredBookings(after.bookings, now) == {}
            && ExpireBookings(after, now, NoFault) == (after, ExpireReport(0, {}, 0))
  {
    var after := ExpireBookings(st, now, NoFault).0;
    assert ExpiredBookings(after.bookings, now) == {};
    assert BulkUpdateStatus(after.bookings, {}, Expired, SYSTEM) == after.bookings;
  }

  /** Days asked for a car are free of other contracts, as the query sees it. */
  ghost predicate FreeOfContracts(st: Store, carId: CarId, start: Day, end: Day, exclude: Option<ContractId>) {
    if start <= end
    then
      && (forall day | start <= day <= end ::
            forall id | id in ContractOccupants(st.contracts, carId, day) :: exclude == Some(id))
      && (forall id | id in st.contracts && Straddles(st.contracts[id], carId, start, end) :: exclude == Some(id))
    else
      forall id ::
        id in ContractOccupants(st.contracts, carId, end) && id in ContractOccupants(st.contracts, carId, start) ==>
          exclude == Some(id)
  }

  /** A contract is made exactly for a known customer and car on free days; nothing is asked of the dates' order. */
  lemma CreatesContractExactlyWhen(st: Store, data: ContractData, user: UserId)
    ensures CreateContract(st, data, user).Ok? <==>
            && data.customerId.Some? && data.customerId.value in st.customers
            && data.carId in st.cars && !st.cars[data.carId].isDeleted
            && FreeOfContracts(st, data.carId, data.startDay, data.endDay, None)
  {
    ContractQueryExactly(st.contracts, data.carId, data.startDay, data.endDay, None);
  }

  /** A contract is changed exactly when what the change names is known, and free if it moves the contract. */
  lemma ChangesContractExactlyWhen(st: Store, id: ContractId, data: ContractPatch, user: UserId)
    requires id in st.contracts
    ensures UpdateContract(st, id, data, user).Ok? <==>
            && var c := st.contracts[id];
               && (data.carId.Some? || data.startDay.Some? || data.endDay.Some? ==>
                     FreeOfContracts(st, data.carId.GetOr(c.carId), data.startDay.GetOr(c.startDay),
                                     data.endDay.GetOr(c.endDay), Some(id)))
               && (data.customerId.Some? ==> data.customerId.value in st.customers)
               && (data.carId.Some? ==> data.carId.value in st.cars && !st.cars[data.carId.value].isDeleted)
  {
    var c := st.contracts[id];
    ContractQueryExactly(st.contracts, data.carId.GetOr(c.carId), data.startDay.GetOr(c.startDay),
                         data.endDay.GetOr(c.endDay), Some(id));
  }

  /** Deleting what was just created gives the old rows back; only the identifier is used up. */
  lemma DeleteUndoesCreate(st: Store, data: BookingRequest, user: UserId, now: Millis)
    requires Inv(st) && CreateBooking(st, data, user, now).Ok?
    ensures var done := CreateBooking(st, data, user, now).value;
            DeleteBooking(done.store, done.id) == Ok(Accepted(st.(nextBooking := done.id + 1), done.id))
  {
    var done := CreateBooking(st, data, user, now).value;
    assert done.store.bookings - {done.id} == st.bookings;
  }

  predicate SetsADate(data: BookingPatch) {
    data.startDate.Some? || data.endDate.Some?
  }

  /** The extras are sent as `null` with a date: the row loses them, and the price still includes the old ones. */
  predicate PricesDroppedExtras(st: Store, b: Booking, data: BookingPatch) {
    SetsADate(data) && data.extras == Null && b.carId in st.cars && ExtrasPerDay(b.extras.GetOr([])) != 0.0
  }

  /** The second of two equal updates without a status meets the same dates, and is accepted. */
  lemma UpdateIsAcceptedAgain(st: Store, id: BookingId, data: BookingPatch, user: UserId, now: Millis)
    requires UpdateBooking(st, id, data, user, now).Ok? && data.status.None?
    ensures var after := UpdateBooking(st, id, data, user, now).value.store;
            && UpdateBooking(after, id, data, user, now).Ok?
            && UpdateBooking(after, id, data, user, now).value.id == id
            && var b', b'' := after.bookings[id], UpdateBooking(after, id, data, user, now).value.store.bookings[id];
               && UpdateBooking(after, id, data, user, now).value.store == after.(bookings := after.bookings[id := b''])
               && b'' == b'.(totalEstimatedCost := b''.totalEstimatedCost)
               && (SetsADate(data) && b'.carId in st.cars ==>
                     b''.totalEstimatedCost == TotalCost(st.cars[b'.carId].pricePerDay, data.extras.OrElse(b'.extras),
                       MergedStart(st.bookings[id], data).at, MergedEnd(st.bookings[id], data).at))
               && ((SetsADate(data) && b'.carId in st.cars) || b''.totalEstimatedCost == b'.totalEstimatedCost)
  {
    var after := UpdateBooking(st, id, data, user, now).value.store;
    var b, b' := st.bookings[id], after.bookings[id];
    if SetsADate(data) {
      var start, end := DayOf(MergedStart(b, data).at), DayOf(MergedEnd(b, data).at);
      assert MergedStart(b', data) == MergedStart(b, data) && MergedEnd(b', data) == MergedEnd(b, data);
      assert ConflictingBookings(after.bookings, b.carId, start, end, Some(id))
          == ConflictingBookings(st.bookings, b.carId, start, end, Some(id));
    }
  }

  /**
   An accepted update without a status is accepted again at once. It changes nothing more, unless it
   sends its extras as `null` with a date and the old ones cost something: then the price drops.
   */
  lemma UpdateIsIdempotentExactly(st: Store, id: BookingId, data: BookingPatch, user: UserId, now: Millis)
    requires UpdateBooking(st, id, data, user, now).Ok? && data.status.None?
    ensures var after := UpdateBooking(st, id, data, user, now).value.store;
            && UpdateBooking(after, id, data, user, now).Ok?
            && (UpdateBooking(after, id, data, user, now) == Ok(Accepted(after, id)) <==>
                !PricesDroppedExtras(st, st.bookings[id], data))
  {
    var after := UpdateBooking(st, id, data, user, now).value.store;
    var b, b' := st.bookings[id], after.bookings[id];
    UpdateIsAcceptedAgain(st, id, data, user, now);
    assert after.bookings[id := b'] == after.bookings;
    if SetsADate(data) && b.carId in st.cars {
      var rate, start, end := st.cars[b.carId].pricePerDay, MergedStart(b, data).at, MergedEnd(b, data).at;
      ValidDatesExactly(start, end, now);
      TotalCostIsPerDay(rate, data.extras.OrElse(b.extras), start, end);
      TotalCostIsPerDay(rate, data.extras.OrElse(b'.extras), start, end);
      PricesAgreeExactly(CalculateDays(start, end), rate + ExtrasPerDay(data.extras.OrElse(b.extras).GetOr([])),
                         rate + ExtrasPerDay(data.extras.OrElse(b'.extras).GetOr([])));
    }
  }

  // ---------- Prices ----------

  /** What the stored total must be for given dates, rate and extras. */
  ghost predicate PricedFor(b: Booking, dailyRate: real, start: Millis, end: Millis) {
    b.totalEstimatedCost == Price(CalculateDays(start, end), dailyRate + ExtrasPerDay(b.extras.GetOr([])))
  }

  function Price(days: nat, perDay: real): real {
    days as real * perDay
  }

  lemma CreatedBookingIsPriced(st: Store, data: BookingRequest, user: UserId, now: Millis)
    requires CreateBooking(st, data, user, now).Ok?
    ensures var done := CreateBooking(st, data, user, now).value;
            var b := done.store.bookings[done.id];
            && PricedFor(b, st.cars[data.carId].pricePerDay, data.startDate.at, data.endDate.at)
            && b.extras == data.extras
            && b.depositAmount == data.depositAmount.GetOr(b.totalEstimatedCost * 3.0 / 10.0)
  {
    TotalCostIsPerDay(st.cars[data.carId].pricePerDay, data.extras, data.startDate.at, data.endDate.at);
  }

  /**
   An update that sets a date and finds the car stores the price of the merged dates with the extras
   sent, or with the old ones if none or `null` were sent. That is the price of the row it stores, unless
   it drops extras that cost something.
   */
  lemma RescheduledBookingIsPricedExactly(st: Store, id: BookingId, data: BookingPatch, user: UserId, now: Millis)
    requires UpdateBooking(st, id, data, user, now).Ok?
    requires SetsADate(data) && st.bookings[id].carId in st.cars
    ensures var b, b' := st.bookings[id], UpdateBooking(st, id, data, user, now).value.store.bookings[id];
            var rate, start, end := st.cars[b.carId].pricePerDay, MergedStart(b, data).at, MergedEnd(b, data).at;
            && b'.extras == data.extras.Copied(b.extras)
            && b'.totalEstimatedCost
               == Price(CalculateDays(start, end), rate + ExtrasPerDay(data.extras.OrElse(b.extras).GetOr([])))
            && (PricedFor(b', rate, start, end) <==> !PricesDroppedExtras(st, b, data))
  {
    var b := st.bookings[id];
    var rate, start, end := st.cars[b.carId].pricePerDay, MergedStart(b, data).at, MergedEnd(b, data).at;
    ValidDatesExactly(start, end, now);
    TotalCostIsPerDay(rate, data.extras.OrElse(b.extras), start, end);
    PricesAgreeExactly(CalculateDays(start, end), rate + ExtrasPerDay(data.extras.OrElse(b.extras).GetOr([])),
                       rate + ExtrasPerDay(data.extras.Copied(b.extras).GetOr([])));
  }

  /**
   An update without dates leaves the total alone, so a booking that was priced stays priced exactly
   when its extras cost the same per day, or it has no day to charge.
   */
  lemma ExtrasOnlyUpdateStaysPricedExactly(st: Store, id: BookingId, data: BookingPatch, user: UserId, now: Millis,
                                           rate: real, start: Millis, end: Millis)
    requires UpdateBooking(st, id, data, user, now).Ok? && !SetsADate(data)
    requires PricedFor(st.bookings[id], rate, start, end)
    ensures PricedFor(UpdateBooking(st, id, data, user, now).value.store.bookings[id], rate, start, end) <==>
            start == end
            || ExtrasPerDay(data.extras.Copied(st.bookings[id].extras).GetOr([]))
               == ExtrasPerDay(st.bookings[id].extras.GetOr([]))
  {
    var b := st.bookings[id];
    DaysAreTheCeiling(start, end, 0);
    PricesAgreeExactly(CalculateDays(start, end), rate + ExtrasPerDay(b.extras.GetOr([])),
                       rate + ExtrasPerDay(data.extras.Copied(b.extras).GetOr([])));
  }

  lemma PricesAgreeExactly(days: nat, x: real, y: real)
    ensures Price(days, x) == Price(days, y) <==> days == 0 || x == y
  {
  }
}
