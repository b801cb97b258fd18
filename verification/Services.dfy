/**
 The services themselves: objects that read and write the tables step by step, proved to do to the
 tables exactly what `Reservations` says, and nothing at all when they refuse.
 */
module Services {
  import opened Wrappers
  import opened Rental
  import opened Reservations

  /** The tables that the repositories share. */
  class Database {
    var bookings: map<BookingId, Booking>
    var contracts: map<ContractId, Contract>
    var cars: map<CarId, Car>
    var customers: set<CustomerId>
    var nextBooking: BookingId
    var nextContract: ContractId

    constructor ()
      ensures Snapshot() == EMPTY
    {
      bookings, contracts, cars, customers := map[], map[], map[], {};
      nextBooking, nextContract := 0, 0;
    }

    function Snapshot(): Store
      reads this
    {
      Store(bookings, contracts, cars, customers, nextBooking, nextContract)
    }

    method InsertBooking(b: Booking) returns (id: BookingId)
      modifies this`bookings, this`nextBooking
      ensures id == old(nextBooking) && nextBooking == id + 1
      ensures bookings == old(bookings)[id := b]
    {
      id := nextBooking;
      bookings := bookings[id := b];
      nextBooking := nextBooking + 1;
    }

    method InsertContract(c: Contract) returns (id: ContractId)
      modifies this`contracts, this`nextContract
      ensures id == old(nextContract) && nextContract == id + 1
      ensures contracts == old(contracts)[id := c]
    {
      id := nextContract;
      contracts := contracts[id := c];
      nextContract := nextContract + 1;
    }
  }

  /** What a call answered and left behind, against what it should have. */
  ghost predicate Answers(outcome: Outcome, before: Store, r: Result<nat, Error>, after: Store) {
    match outcome
    case Ok(done) => r == Ok(done.id) && after == done.store
    case Err(e) => r == Err(e) && after == before
  }

  class ContractService {
    const db: Database

    constructor (db: Database)
      ensures this.db == db
    {
      this.db := db;
    }

    method Create(data: ContractData, user: UserId) returns (r: Result<ContractId, Error>)
      modifies db
      ensures Answers(CreateContract(old(db.Snapshot()), data, user), old(db.Snapshot()), r, db.Snapshot())
    {
      if data.customerId.None? || data.customerId.value !in db.customers {
        return Err(CustomerNotFound);
      }
      if data.carId !in db.cars || db.cars[data.carId].isDeleted {
        return Err(CarNotFound);
      }
      var conflicts := ConflictingContracts(db.contracts, data.carId, data.startDay, data.endDay, None);
      if |conflicts| != 0 {
        return Err(DatesTaken);
      }
      var id := db.InsertContract(Contract(
        data.customerId.value, data.carId, data.startDay, data.endDay, data.dailyRate, data.totalAmount,
        false, user, None));
      return Ok(id);
    }

    method Update(id: ContractId, data: ContractPatch, user: UserId) returns (r: Result<ContractId, Error>)
      modifies db
      ensures Answers(UpdateContract(old(db.Snapshot()), id, data, user), old(db.Snapshot()), r, db.Snapshot())
    {
      if id !in db.contracts {
        return Err(NotFound);
      }
      var contract := db.contracts[id];
      var carId := data.carId.GetOr(contract.carId);
      var startDay := data.startDay.GetOr(contract.startDay);
      var endDay := data.endDay.GetOr(contract.endDay);
      if data.carId.Some? || data.startDay.Some? || data.endDay.Some? {
        var conflicts := ConflictingContracts(db.contracts, carId, startDay, endDay, Some(id));
        if |conflicts| != 0 {
          return Err(DatesTaken);
        }
      }
      if data.customerId.Some? && data.customerId.value !in db.customers {
        return Err(CustomerNotFound);
      }
      if data.carId.Some? && (data.carId.value !in db.cars || db.cars[data.carId.value].isDeleted) {
        return Err(CarNotFound);
      }
      contract := contract.(
        customerId := data.customerId.GetOr(contract.customerId), carId := carId,
        startDay := startDay, endDay := endDay,
        dailyRate := data.dailyRate.GetOr(contract.dailyRate),
        totalAmount := data.totalAmount.GetOr(contract.totalAmount),
        notificationSent := data.notificationSent.GetOr(contract.notificationSent),
        updatedBy := Some(user));
      db.contracts := db.contracts[id := contract];
      return Ok(id);
    }

    method Delete(id: ContractId) returns (r: Result<ContractId, Error>)
      modifies db
      ensures Answers(DeleteContract(old(db.Snapshot()), id), old(db.Snapshot()), r, db.Snapshot())
    {
      if id !in db.contracts {
        return Err(NotFound);
      }
      db.contracts := db.contracts - {id};
      return Ok(id);
    }
  }

  class BookingService {
    const db: Database
    const contractService: ContractService

    ghost predicate Valid() {
      contractService.db == db
    }

    constructor (contractService: ContractService)
      ensures Valid() && db == contractService.db
    {
      this.db := contractService.db;
      this.contractService := contractService;
    }

    method Create(data: BookingRequest, user: UserId, now: Millis) returns (r: Result<BookingId, Error>)
      modifies db
      ensures Answers(CreateBooking(old(db.Snapshot()), data, user, now), old(db.Snapshot()), r, db.Snapshot())
    {
      if data.carId !in db.cars {
        return Err(CarNotFound);
      }
      var car := db.cars[data.carId];
      if car.status != Available {
        return Err(CarNotAvailable);
      }
      if data.startDate.InvalidDate? {
        return Err(InvalidStartDate);
      }
      if data.endDate.InvalidDate? {
        return Err(InvalidEndDate);
      }
      var startDate, endDate := data.startDate.at, data.endDate.at;
      var invalid := ValidateDates(startDate, endDate, now);
      if invalid.Some? {
        return Err(invalid.value);
      }
      var isAvailable := CheckCarAvailability(db.bookings, data.carId, DayOf(startDate), DayOf(endDate), None);
      if !isAvailable {
        var conflicts := ConflictingBookings(db.bookings, data.carId, DayOf(startDate), DayOf(endDate), None);
        return Err(Conflict(|conflicts|));
      }
      var estimatedCost := CalculateEstimatedCost(car.pricePerDay, startDate, endDate);
      var extrasCost := ExtrasCost(data.extras, startDate, endDate);
      var totalCost := estimatedCost + extrasCost;
      var expiresAt := CalculateExpirationDate(startDate, now);
      var depositAmount := if data.depositAmount.Some? then data.depositAmount.value else totalCost * 0.3;
      var id := db.InsertBooking(Booking(
        data.customerId, data.carId, DayOf(startDate), DayOf(endDate), data.pickupLocation, data.dropoffLocation,
        None, data.extras, data.notes, totalCost, depositAmount, false, Pending, expiresAt, user,
        None, None, None, None, None));
      return Ok(id);
    }

    /** The optional columns of `updateData`, field by field: what is not `undefined` is copied, `null` included. */
    method CopyDetails(existing: Booking, data: BookingPatch)
      returns (pickup: Option<string>, dropoff: Option<string>, drivers: Option<seq<string>>,
               extras: Option<seq<Extra>>, notes: Option<string>)
      ensures pickup == data.pickupLocation.Copied(existing.pickupLocation)
      ensures dropoff == data.dropoffLocation.Copied(existing.dropoffLocation)
      ensures drivers == data.additionalDrivers.Copied(existing.additionalDrivers)
      ensures extras == data.extras.Copied(existing.extras)
      ensures notes == data.notes.Copied(existing.notes)
    {
      pickup, dropoff, drivers := existing.pickupLocation, existing.dropoffLocation, existing.additionalDrivers;
      extras, notes := existing.extras, existing.notes;
      if data.pickupLocation != Absent { pickup := data.pickupLocation.Copied(None); }
      if data.dropoffLocation != Absent { dropoff := data.dropoffLocation.Copied(None); }
      if data.additionalDrivers != Absent { drivers := data.additionalDrivers.Copied(None); }
      if data.extras != Absent { extras := data.extras.Copied(None); }
      if data.notes != Absent { notes := data.notes.Copied(None); }
    }

    /** Builds the row: the optional columns, then deposit and status if they are sent. */
    method PrepareUpdate(existing: Booking, data: BookingPatch, user: UserId) returns (row: Booking)
      ensures row == CopyPlainFields(existing, data, user)
    {
      var pickup, dropoff, drivers, extras, notes := CopyDetails(existing, data);
      var amount, paid, status := existing.depositAmount, existing.depositPaid, existing.status;
      if data.depositAmount.Some? { amount := data.depositAmount.value; }
      if data.depositPaid.Some? { paid := data.depositPaid.value; }
      if data.status.Some? { status := data.status.value; }
      row := existing.(pickupLocation := pickup, dropoffLocation := dropoff, additionalDrivers := drivers,
                       extras := extras, notes := notes, depositAmount := amount, depositPaid := paid,
                       status := status, updatedBy := Some(user));
    }

    /** The part of `update` for a request that sets a date: what the row becomes, or why it cannot. */
    method Reschedule(id: BookingId, existing: Booking, row: Booking, data: BookingPatch, now: Millis)
      returns (r: Result<Booking, Error>)
      requires data.startDate.Some? || data.endDate.Some?
      ensures r == Rescheduled(db.Snapshot(), id, existing, row, data, now)
    {
      var startDate, endDate := Midnight(existing.startDay), Midnight(existing.endDay);
      if data.startDate.Some? {
        if data.startDate.value.InvalidDate? {
          return Err(InvalidStartDate);
        }
        startDate := data.startDate.value.at;
      }
      if data.endDate.Some? {
        if data.endDate.value.InvalidDate? {
          return Err(InvalidEndDate);
        }
        endDate := data.endDate.value.at;
      }
      var invalid := ValidateDates(startDate, endDate, now);
      if invalid.Some? {
        return Err(invalid.value);
      }
      var isAvailable := CheckCarAvailability(db.bookings, existing.carId, DayOf(startDate), DayOf(endDate), Some(id));
      if !isAvailable {
        return Err(DatesTaken);
      }
      var dated := row;
      if data.startDate.Some? { dated := dated.(startDay := DayOf(startDate)); }
      if data.endDate.Some? { dated := dated.(endDay := DayOf(endDate)); }
      if existing.carId in db.cars {
        var extras := data.extras.OrElse(existing.extras);
        var cost := CalculateEstimatedCost(db.cars[existing.carId].pricePerDay, startDate, endDate);
        dated := dated.(totalEstimatedCost := cost + ExtrasCost(extras, startDate, endDate));
      }
      return Ok(dated);
    }

    method Update(id: BookingId, data: BookingPatch, user: UserId, now: Millis) returns (r: Result<BookingId, Error>)
      modifies db
      ensures Answers(UpdateBooking(old(db.Snapshot()), id, data, user, now), old(db.Snapshot()), r, db.Snapshot())
    {
      if id !in db.bookings {
        return Err(NotFound);
      }
      var existing := db.bookings[id];
      if data.status.Some? && !ValidTransition(existing.status, data.status.value) {
        return Err(InvalidTransition);
      }
      var row := PrepareUpdate(existing, data, user);
      if data.startDate.Some? || data.endDate.Some? {
        var rescheduled := Reschedule(id, existing, row, data, now);
        if rescheduled.Err? {
          return Err(rescheduled.error);
        }
        row := rescheduled.value;
      }
      db.bookings := db.bookings[id := row];
      return Ok(id);
    }

    method Confirm(id: BookingId, user: UserId, now: Millis) returns (r: Result<BookingId, Error>)
      modifies db
      ensures Answers(ConfirmBooking(old(db.Snapshot()), id, user, now), old(db.Snapshot()), r, db.Snapshot())
    {
      if id !in db.bookings {
        return Err(NotFound);
      }
      var booking := db.bookings[id];
      if booking.status != Pending {
        return Err(NotPending);
      }
      if !booking.depositPaid {
        return Err(DepositNotPaid);
      }
      if now > booking.expiresAt {
        return Err(DeadlinePassed);
      }
      r := Update(id, NO_CHANGE.(status := Some(Confirmed)), user, now);
    }

    method Cancel(id: BookingId, reason: string, user: UserId, now: Millis) returns (r: Result<BookingId, Error>)
      modifies db
      ensures Answers(CancelBooking(old(db.Snapshot()), id, reason, user, now), old(db.Snapshot()), r, db.Snapshot())
    {
      if |Trim(reason)| < MIN_REASON_LENGTH {
        return Err(ReasonTooShort);
      }
      if id !in db.bookings {
        return Err(NotFound);
      }
      var booking := db.bookings[id];
      if booking.status == Cancelled {
        return Err(AlreadyCancelled);
      }
      if booking.status == Converted {
        return Err(AlreadyConverted);
      }
      booking := booking.(status := Cancelled, cancelledAt := Some(now), cancellationReason := Some(reason),
                          updatedBy := Some(user));
      db.bookings := db.bookings[id := booking];
      return Ok(id);
    }

    /** Two writes in a row: the contract service inserts, then the booking is marked. */
    method Convert(id: BookingId, user: UserId, now: Millis) returns (r: Result<ContractId, Error>)
      requires Valid()
      modifies db
      ensures Answers(ConvertToContract(old(db.Snapshot()), id, user, now), old(db.Snapshot()), r, db.Snapshot())
    {
      if id !in db.bookings {
        return Err(NotFound);
      }
      var booking := db.bookings[id];
      if booking.status != Confirmed {
        return Err(NotConfirmed);
      }
      if !booking.depositPaid {
        return Err(DepositNotPaid);
      }
      if now > booking.expiresAt {
        return Err(DeadlinePassed);
      }
      if booking.carId !in db.cars {
        return Err(CarNotFound);
      }
      r := contractService.Create(ContractFor(booking, db.cars[booking.carId].pricePerDay), user);
      if r.Ok? {
        booking := booking.(status := Converted, convertedToContractId := Some(r.value), convertedAt := Some(now),
                            updatedBy := Some(user));
        db.bookings := db.bookings[id := booking];
      }
    }

    method ExpireAll(now: Millis, fault: Fault) returns (report: ExpireReport)
      modifies db
      ensures (db.Snapshot(), report) == ExpireBookings(old(db.Snapshot()), now, fault)
    {
      if fault == FindFails {
        return ExpireReport(0, {}, 0);
      }
      var ids := ExpiredBookings(db.bookings, now);
      if |ids| == 0 {
        assert ids == {};
        assert db.bookings == BulkUpdateStatus(db.bookings, ids, Expired, SYSTEM);
        return ExpireReport(0, {}, 0);
      }
      if fault == BulkFails {
        return ExpireReport(0, {}, |ids|);
      }
      db.bookings := BulkUpdateStatus(db.bookings, ids, Expired, SYSTEM);
      if fault == RefetchFails {
        return ExpireReport(0, {}, |ids|);
      }
      return ExpireReport(|ids|, ids, 0);
    }

    method Expire(id: BookingId, user: UserId, now: Millis) returns (r: Result<BookingId, Error>)
      modifies db
      ensures Answers(ExpireBooking(old(db.Snapshot()), id, user, now), old(db.Snapshot()), r, db.Snapshot())
    {
      if id !in db.bookings {
        return Err(NotFound);
      }
      var booking := db.bookings[id];
      if booking.status != Pending && booking.status != Confirmed {
        return Err(NotActive);
      }
      r := Update(id, NO_CHANGE.(status := Some(Expired)), user, now);
    }

    method Delete(id: BookingId) returns (r: Result<BookingId, Error>)
      modifies db
      ensures Answers(DeleteBooking(old(db.Snapshot()), id), old(db.Snapshot()), r, db.Snapshot())
    {
      if id !in db.bookings {
        return Err(NotFound);
      }
      db.bookings := db.bookings - {id};
      return Ok(id);
    }
  }
}
