/**
 What the calls store, column by column, and why they refuse. Every column is either as sent, or as it
 was, or written by the call itself; no other row of any table changes.
 */
module StoredRows {
  import opened Wrappers
  import opened Rental
  import opened Reservations
  import opened Calendar
  import opened Lifecycle
  import opened Conversion

  /** A column that a request may leave out. */
  predicate Takes<T(==)>(stored: T, sent: Option<T>, before: T) {
    (sent.Some? ==> stored == sent.value) && (sent.None? ==> stored == before)
  }

  /** A column that it may also clear by sending `null`. */
  predicate TakesOrClears<T(==)>(stored: Option<T>, sent: Sent<T>, before: Option<T>) {
    && (sent.Value? ==> stored == Some(sent.value))
    && (sent.Null? ==> stored == None)
    && (sent.Absent? ==> stored == before)
  }

  // ---------- Bookings ----------

  /** A created booking is the one asked for, by the caller, with nothing cancelled or converted yet. */
  lemma CreatedRow(st: Store, data: BookingRequest, user: UserId, now: Millis)
    requires CreateBooking(st, data, user, now).Ok?
    ensures var done := CreateBooking(st, data, user, now).value;
            && done.id == st.nextBooking && done.id in done.store.bookings
            && done.store == st.(bookings := st.bookings[done.id := done.store.bookings[done.id]],
                                 nextBooking := done.id + 1)
            && var b := done.store.bookings[done.id];
               && b.customerId == data.customerId && b.carId == data.carId
               && data.startDate.Instant? && b.startDay == DayOf(data.startDate.at)
               && data.endDate.Instant? && b.endDay == DayOf(data.endDate.at)
               && b.pickupLocation == data.pickupLocation && b.dropoffLocation == data.dropoffLocation
               && b.extras == data.extras && b.notes == data.notes && b.additionalDrivers == None
               && b.status == Pending && !b.depositPaid && b.createdBy == user && b.updatedBy == None
               && b.cancelledAt == None && b.cancellationReason == None
               && b.convertedToContractId == None && b.convertedAt == None
               && b.expiresAt <= now + 7 * MILLIS_PER_DAY && b.expiresAt <= data.startDate.at - MILLIS_PER_DAY
               && b.expiresAt in {now + 7 * MILLIS_PER_DAY, data.startDate.at - MILLIS_PER_DAY}
  {
  }

  /** The columns an update may write, each as sent or as it was; the price is the subject of `Conversion`. */
  predicate UpdatedTo(b: Booking, data: BookingPatch, user: UserId, b': Booking) {
    && TakesOrClears(b'.pickupLocation, data.pickupLocation, b.pickupLocation)
    && TakesOrClears(b'.dropoffLocation, data.dropoffLocation, b.dropoffLocation)
    && TakesOrClears(b'.additionalDrivers, data.additionalDrivers, b.additionalDrivers)
    && TakesOrClears(b'.extras, data.extras, b.extras)
    && TakesOrClears(b'.notes, data.notes, b.notes)
    && Takes(b'.depositAmount, data.depositAmount, b.depositAmount)
    && Takes(b'.depositPaid, data.depositPaid, b.depositPaid)
    && Takes(b'.status, data.status, b.status)
    && b'.updatedBy == Some(user)
  }

  /** The days it may move; without a date the price stays. */
  predicate MovedTo(b: Booking, data: BookingPatch, b': Booking) {
    && DayTaken(b'.startDay, data.startDate, b.startDay) && DayTaken(b'.endDay, data.endDate, b.endDay)
    && (data.startDate.None? && data.endDate.None? ==> b'.totalEstimatedCost == b.totalEstimatedCost)
  }

  predicate DayTaken(stored: Day, sent: Option<DateInput>, before: Day) {
    if sent.Some? then sent.value.Instant? && stored == DayOf(sent.value.at) else stored == before
  }

  predicate SameOrigin(b: Booking, b': Booking) {
    && b'.customerId == b.customerId && b'.carId == b.carId && b'.expiresAt == b.expiresAt
    && b'.createdBy == b.createdBy && b'.cancelledAt == b.cancelledAt && b'.cancellationReason == b.cancellationReason
    && b'.convertedToContractId == b.convertedToContractId && b'.convertedAt == b.convertedAt
  }

  lemma CopiedRow(b: Booking, data: BookingPatch, user: UserId)
    ensures UpdatedTo(b, data, user, CopyPlainFields(b, data, user))
    ensures SameOrigin(b, CopyPlainFields(b, data, user))
  {
  }

  /** The row of an accepted update is the copied one, with other days and another price at most. */
  lemma DatedRow(st: Store, id: BookingId, data: BookingPatch, user: UserId, now: Millis)
    requires UpdateBooking(st, id, data, user, now).Ok?
    ensures var done := UpdateBooking(st, id, data, user, now).value;
            && done.id == id && id in st.bookings && id in done.store.bookings
            && done.store == st.(bookings := st.bookings[id := done.store.bookings[id]])
            && var b, b' := st.bookings[id], done.store.bookings[id];
               && b' == CopyPlainFields(b, data, user).(startDay := b'.startDay, endDay := b'.endDay,
                                                        totalEstimatedCost := b'.totalEstimatedCost)
               && MovedTo(b, data, b')
  {
  }

  lemma UpdatedRow(st: Store, id: BookingId, data: BookingPatch, user: UserId, now: Millis)
    requires UpdateBooking(st, id, data, user, now).Ok?
    ensures var done := UpdateBooking(st, id, data, user, now).value;
            && done.id == id && id in st.bookings && id in done.store.bookings
            && done.store == st.(bookings := st.bookings[id := done.store.bookings[id]])
            && UpdatedTo(st.bookings[id], data, user, done.store.bookings[id])
            && MovedTo(st.bookings[id], data, done.store.bookings[id])
            && SameOrigin(st.bookings[id], done.store.bookings[id])
  {
    CopiedRow(st.bookings[id], data, user);
    DatedRow(st, id, data, user, now);
  }

  /** Deleting takes one row out, if it is there, and nothing else. */
  lemma DeletesExactly(st: Store, id: BookingId)
    ensures DeleteBooking(st, id).Ok? <==> id in st.bookings
    ensures DeleteBooking(st, id).Ok? ==>
              && var after := DeleteBooking(st, id).value.store;
                 && after == st.(bookings := after.bookings) && id !in after.bookings
                 && forall other | other != id ::
                      && (other in after.bookings <==> other in st.bookings)
                      && (other in after.bookings ==> after.bookings[other] == st.bookings[other])
  {
  }

  // ---------- Contracts ----------

  /** A new contract is the one asked for, by the caller, and takes exactly its days. */
  lemma CreatedContractRow(st: Store, data: ContractData, user: UserId, carId: CarId, day: Day)
    requires FreshIds(st) && CreateContract(st, data, user).Ok?
    ensures var done := CreateContract(st, data, user).value;
            && done.id == st.nextContract && done.id !in st.contracts && done.id in done.store.contracts
            && done.store == st.(contracts := st.contracts[done.id := done.store.contracts[done.id]],
                                 nextContract := done.id + 1)
            && (var c := done.store.contracts[done.id];
                && data.customerId == Some(c.customerId) && c.carId == data.carId
                && c.startDay == data.startDay && c.endDay == data.endDay
                && c.dailyRate == data.dailyRate && c.totalAmount == data.totalAmount
                && !c.notificationSent && c.createdBy == user && c.updatedBy == None)
            && ContractOccupants(done.store.contracts, carId, day)
               == ContractOccupants(st.contracts, carId, day)
                  + (if carId == data.carId && data.startDay <= day <= data.endDay then {done.id} else {})
  {
  }

  /** A changed contract has each column as sent or as it was, and takes exactly its merged days instead of its old. */
  lemma ChangedContractRow(st: Store, id: ContractId, data: ContractPatch, user: UserId, carId: CarId, day: Day)
    requires UpdateContract(st, id, data, user).Ok?
    ensures var done := UpdateContract(st, id, data, user).value;
            && done.id == id && id in st.contracts && id in done.store.contracts
            && done.store == st.(contracts := st.contracts[id := done.store.contracts[id]])
            && var c, c' := st.contracts[id], done.store.contracts[id];
               && Takes(c'.customerId, data.customerId, c.customerId) && Takes(c'.carId, data.carId, c.carId)
               && Takes(c'.startDay, data.startDay, c.startDay) && Takes(c'.endDay, data.endDay, c.endDay)
               && Takes(c'.dailyRate, data.dailyRate, c.dailyRate)
               && Takes(c'.totalAmount, data.totalAmount, c.totalAmount)
               && Takes(c'.notificationSent, data.notificationSent, c.notificationSent)
               && c'.createdBy == c.createdBy && c'.updatedBy == Some(user)
               && ContractOccupants(done.store.contracts, carId, day)
                  == ContractOccupants(st.contracts, carId, day) - {id}
                     + (if carId == c'.carId && c'.startDay <= day <= c'.endDay then {id} else {})
  {
  }

  /** Dropping a contract gives back exactly its days. */
  lemma DropsExactly(st: Store, id: ContractId, carId: CarId, day: Day)
    ensures DeleteContract(st, id).Ok? <==> id in st.contracts
    ensures DeleteContract(st, id).Ok? ==>
              && var after := DeleteContract(st, id).value.store;
                 && after == st.(contracts := after.contracts) && after.contracts.Keys == st.contracts.Keys - {id}
                 && (forall other | other in after.contracts :: after.contracts[other] == st.contracts[other])
                 && ContractOccupants(after.contracts, carId, day)
                    == ContractOccupants(st.contracts, carId, day) - {id}
  {
  }

  /** Today's contracts are those that cover today, each under its own car. */
  lemma ActiveContractsExactly(contracts: map<ContractId, Contract>, today: Day, id: ContractId)
    ensures id in FindActiveContracts(contracts, today) <==>
            id in contracts && id in ContractOccupants(contracts, contracts[id].carId, today)
  {
  }

  // ---------- Over a run ----------

  /** The booking is there, with this status, last written by this user. */
  predicate HasStatus(st: Store, id: BookingId, status: BookingStatus, writer: Option<UserId>) {
    id in st.bookings && st.bookings[id].status == status && st.bookings[id].updatedBy == writer
  }

  /** An accepted event of a run does what its call is named for. */
  lemma EventsDoAsNamed(st: Store, call: Call, now: Millis)
    requires Perform(st, call, now).Ok?
    ensures var after := After(st, call, now);
            match call
            case Create(data, user) => after.bookings.Keys == st.bookings.Keys + {st.nextBooking}
            case Update(id, data, user) =>
              id in st.bookings && id in after.bookings && UpdatedTo(st.bookings[id], data, user, after.bookings[id])
            case Confirm(id, user) => HasStatus(after, id, Confirmed, Some(user))
            case Cancel(id, reason, user) =>
              HasStatus(after, id, Cancelled, Some(user)) && after.bookings[id].cancellationReason == Some(reason)
            case Convert(id, user) =>
              HasStatus(after, id, Converted, Some(user))
              && after.bookings[id].convertedToContractId == Some(st.nextContract)
            case Expire(id, user) => HasStatus(after, id, Expired, Some(user))
            case ExpireAll(fault) => fault == NoFault ==> ExpiredBookings(after.bookings, now) == {}
            case ExpireScheduled(id) => id in after.bookings && after.bookings[id].status == Expired
            case Delete(id) => after == st.(bookings := st.bookings - {id})
            case NewContract(contract, user) => after.contracts.Keys == st.contracts.Keys + {st.nextContract}
            case ChangeContract(id, change, user) =>
              id in after.contracts && after.contracts[id].updatedBy == Some(user)
            case DropContract(id) => after == st.(contracts := st.contracts - {id})
            case WriteCar(carId, car) =>
              (carId in after.cars <==> car.Some?) && (car.Some? ==> after.cars[carId] == car.value)
            case WriteCustomers(customers) => after == st.(customers := customers)
  {
    match call
    case Update(id, data, user) => UpdatedRow(st, id, data, user, now);
    case ExpireAll(fault) => BulkExpiryIsComplete(st, now);
    case _ =>
  }

  /** A booking created by event i and converted by event j, whatever happened to it in between. */
  lemma ContractNamesTheCustomer(st: Store, events: seq<Event>, i: nat, j: nat)
    requires Inv(st) && i < j < |events|
    requires events[i].call.Create? && Succeeds(st, events, i)
    requires events[j].call.Convert? && events[j].call.id == Run(st, events[..i]).nextBooking && Succeeds(st, events, j)
    ensures var contractId, contracts := Run(st, events[..j]).nextContract, Run(st, events[..j + 1]).contracts;
            && contractId in contracts
            && Some(contracts[contractId].customerId) == events[i].call.data.customerId
            && contracts[contractId].carId == events[i].call.data.carId
  {
    var id := Run(st, events[..i]).nextBooking;
    RunExtends(st, events, i);
    RunExtends(st, events, j);
    CreatedRow(Run(st, events[..i]), events[i].call.data, events[i].call.user, events[i].now);
    assert id in Run(st, events[..j]).bookings;
    KeptOverTime(st, events, i + 1, j, id);
  }

  // ---------- Why a call is refused ----------

  /** The active bookings that hold the car on one of the days. */
  ghost function Holding(bookings: map<BookingId, Booking>, carId: CarId, start: Day, end: Day): set<BookingId> {
    set id | id in bookings && exists day | start <= day <= end :: id in Occupants(bookings, carId, day)
  }

  lemma ConflictsHold(bookings: map<BookingId, Booking>, carId: CarId, start: Day, end: Day)
    requires BookingsOrdered(bookings) && start <= end
    ensures ConflictingBookings(bookings, carId, start, end, None) == Holding(bookings, carId, start, end)
  {
    forall id | id in ConflictingBookings(bookings, carId, start, end, None)
      ensures id in Holding(bookings, carId, start, end)
    {
      var b := bookings[id];
      assert id in Occupants(bookings, carId, if b.startDay <= start then start else b.startDay);
    }
  }

  predicate CarFree(st: Store, carId: CarId) {
    carId in st.cars && st.cars[carId].status == Available
  }

  /** What is wrong with two instants as the period of a booking, in the order in which it is looked for. */
  predicate WrongPeriod(start: Millis, end: Millis, now: Millis, e: Error) {
    match e
    case StartInPast => start < Midnight(DayOf(now))
    case EndNotAfterStart => Midnight(DayOf(now)) <= start && end <= start
    case TooLong => Midnight(DayOf(now)) <= start && end > start + MAX_RENTAL_DAYS * MILLIS_PER_DAY
    case _ => false
  }

  lemma RefusedPeriod(start: Millis, end: Millis, now: Millis, e: Error)
    ensures ValidateDates(start, end, now) == Some(e) <==> WrongPeriod(start, end, now, e)
  {
    if start < end {
      DaysAreTheCeiling(start, end, MAX_RENTAL_DAYS);
    }
  }

  /** The reasons to refuse a booking; for taken days, with the number of bookings that take them. */
  lemma CreateRefuses(st: Store, data: BookingRequest, user: UserId, now: Millis, e: Error)
    requires Inv(st)
    ensures CreateBooking(st, data, user, now) == Err(e) <==>
            match e
            case CarNotFound => data.carId !in st.cars
            case CarNotAvailable => data.carId in st.cars && st.cars[data.carId].status != Available
            case InvalidStartDate => CarFree(st, data.carId) && data.startDate.InvalidDate?
            case InvalidEndDate => CarFree(st, data.carId) && data.startDate.Instant? && data.endDate.InvalidDate?
            case Conflict(n) =>
              && CarFree(st, data.carId) && data.startDate.Instant? && data.endDate.Instant?
              && (forall e' :: !WrongPeriod(data.startDate.at, data.endDate.at, now, e'))
              && n > 0 && n == |Holding(st.bookings, data.carId, DayOf(data.startDate.at), DayOf(data.endDate.at))|
            case _ =>
              && CarFree(st, data.carId) && data.startDate.Instant? && data.endDate.Instant?
              && WrongPeriod(data.startDate.at, data.endDate.at, now, e)
  {
    if data.startDate.Instant? && data.endDate.Instant? {
      var start, end := data.startDate.at, data.endDate.at;
      ValidDatesExactly(start, end, now);
      forall e' {
        RefusedPeriod(start, end, now, e');
      }
      if ValidateDates(start, end, now).None? {
        ConflictsHold(st.bookings, data.carId, DayOf(start), DayOf(end));
      }
    }
  }

  /** The reasons to refuse an update: the status first, then the dates it would have. */
  lemma UpdateRefuses(st: Store, id: BookingId, data: BookingPatch, user: UserId, now: Millis, e: Error)
    ensures UpdateBooking(st, id, data, user, now) == Err(NotFound) <==> id !in st.bookings
    ensures id in st.bookings ==>
              && var b, r := st.bookings[id], UpdateBooking(st, id, data, user, now);
                 var move := data.status.None? || TableAllows(b.status, data.status.value);
                 var start, end := data.startDate.GetOr(Instant(Midnight(b.startDay))),
                                   data.endDate.GetOr(Instant(Midnight(b.endDay)));
                 && (r == Err(InvalidTransition) <==> !move)
                 && (r == Err(InvalidStartDate) <==> move && start.InvalidDate?)
                 && (r == Err(InvalidEndDate) <==> move && start.Instant? && end.InvalidDate?)
                 && (move && start.Instant? && end.Instant? && (data.startDate.Some? || data.endDate.Some?) ==>
                       && (e.StartInPast? || e.EndNotAfterStart? || e.TooLong? ==>
                             (r == Err(e) <==> WrongPeriod(start.at, end.at, now, e)))
                       && (ValidateDates(start.at, end.at, now).None? ==> r.Ok? || r == Err(DatesTaken)))
  {
    if id in st.bookings && MergedStart(st.bookings[id], data).Instant? && MergedEnd(st.bookings[id], data).Instant? {
      RefusedPeriod(MergedStart(st.bookings[id], data).at, MergedEnd(st.bookings[id], data).at, now, e);
    }
  }

  /** The reasons to refuse a confirmation, a conversion and a cancellation, each in the order of the checks. */
  lemma ConfirmRefuses(st: Store, id: BookingId, user: UserId, now: Millis)
    ensures ConfirmBooking(st, id, user, now) == Err(NotFound) <==> id !in st.bookings
    ensures id in st.bookings ==>
              && var b, r := st.bookings[id], ConfirmBooking(st, id, user, now);
                 && (r == Err(NotPending) <==> b.status != Pending)
                 && (r == Err(DepositNotPaid) <==> b.status == Pending && !b.depositPaid)
                 && (r == Err(DeadlinePassed) <==> b.status == Pending && b.depositPaid && b.expiresAt < now)
  {
  }

  /** The reasons to refuse a contract. */
  lemma ContractRefuses(st: Store, data: ContractData, user: UserId)
    ensures var r := CreateContract(st, data, user);
            var knownCustomer := data.customerId.Some? && data.customerId.value in st.customers;
            var knownCar := data.carId in st.cars && !st.cars[data.carId].isDeleted;
            var free := FreeOfContracts(st, data.carId, data.startDay, data.endDay, None);
            && (r == Err(CustomerNotFound) <==> !knownCustomer)
            && (r == Err(CarNotFound) <==> knownCustomer && !knownCar)
            && (r == Err(DatesTaken) <==> knownCustomer && knownCar && !free)
  {
    CreatesContractExactlyWhen(st, data, user);
  }

  /** The reasons to refuse a change of a contract: taken days are noticed first. */
  lemma ChangeRefuses(st: Store, id: ContractId, data: ContractPatch, user: UserId)
    ensures UpdateContract(st, id, data, user) == Err(NotFound) <==> id !in st.contracts
    ensures id in st.contracts ==>
              && var c, r := st.contracts[id], UpdateContract(st, id, data, user);
                 var free := (data.carId.Some? || data.startDay.Some? || data.endDay.Some? ==>
                   FreeOfContracts(st, data.carId.GetOr(c.carId), data.startDay.GetOr(c.startDay),
                                   data.endDay.GetOr(c.endDay), Some(id)));
                 var knownCustomer := data.customerId.Some? ==> data.customerId.value in st.customers;
                 var carId := data.carId.GetOr(0);
                 var knownCar := data.carId.Some? ==> carId in st.cars && !st.cars[carId].isDeleted;
                 && (r == Err(DatesTaken) <==> !free)
                 && (r == Err(CustomerNotFound) <==> free && !knownCustomer)
                 && (r == Err(CarNotFound) <==> free && knownCustomer && !knownCar)
  {
    if id in st.contracts {
      var c := st.contracts[id];
      ContractQueryExactly(st.contracts, data.carId.GetOr(c.carId), data.startDay.GetOr(c.startDay),
                           data.endDay.GetOr(c.endDay), Some(id));
    }
  }

  lemma ConvertRefuses(st: Store, id: BookingId, user: UserId, now: Millis)
    ensures ConvertToContract(st, id, user, now) == Err(NotFound) <==> id !in st.bookings
    ensures id in st.bookings ==>
              && var b, r := st.bookings[id], ConvertToContract(st, id, user, now);
                 && (r == Err(NotConfirmed) <==> b.status != Confirmed)
                 && (r == Err(DepositNotPaid) <==> b.status == Confirmed && !b.depositPaid)
                 && (r == Err(DeadlinePassed) <==> b.status == Confirmed && b.depositPaid && b.expiresAt < now)
                 && (b.status == Confirmed && b.depositPaid && now <= b.expiresAt && b.carId in st.cars ==>
                       var asked := CreateContract(st, ContractFor(b, st.cars[b.carId].pricePerDay), user);
                       asked.Err? ==> r == asked)
                 && (b.status == Confirmed && b.depositPaid && now <= b.expiresAt && b.carId !in st.cars ==>
                       r == Err(CarNotFound))
  {
  }

  lemma CancelRefuses(st: Store, id: BookingId, reason: string, user: UserId, now: Millis)
    ensures var r := CancelBooking(st, id, reason, user, now);
            && (r == Err(ReasonTooShort) <==> |Trim(reason)| < 10)
            && (r == Err(NotFound) <==> |Trim(reason)| >= 10 && id !in st.bookings)
            && (id in st.bookings ==>
                  && (r == Err(AlreadyCancelled) <==> |Trim(reason)| >= 10 && st.bookings[id].status == Cancelled)
                  && (r == Err(AlreadyConverted) <==> |Trim(reason)| >= 10 && st.bookings[id].status == Converted))
  {
  }

  predicate Blank(c: char) {
    c == ' ' || c == '\t' || c == '\n' || c == '\r'
  }

  /** A reason of nothing but blanks is no reason, however long; one between two visible letters counts whole. */
  lemma {:induction false} BlanksAreNoReason(reason: string)
    ensures (forall i | 0 <= i < |reason| :: Blank(reason[i])) ==> Trim(reason) == ""
    ensures reason != "" && 'A' <= reason[0] <= 'z' && 'A' <= reason[|reason| - 1] <= 'z' ==> Trim(reason) == reason
  {
    if reason != "" {
      BlanksAreNoReason(reason[1..]);
    }
  }
}
