/**
 The reservation engine on values: what each service call makes of the booking, contract and car
 tables. A rejected call yields an error and no new store.
 */
module Reservations {
  import opened Wrappers
  import opened Rental

  /** The tables. Generated identifiers are counters: an identifier is never handed out twice. */
  datatype Store = Store(
    bookings: map<BookingId, Booking>,
    contracts: map<ContractId, Contract>,
    cars: map<CarId, Car>,
    customers: set<CustomerId>,
    nextBooking: BookingId,
    nextContract: ContractId)

  const EMPTY := Store(map[], map[], map[], {}, 0, 0)

  /** The identity under which scheduled jobs write. */
  const SYSTEM: UserId := 0

  /** The new store together with the identifier of the row that the call returns. */
  datatype Accepted = Accepted(store: Store, id: nat)

  type Outcome = Result<Accepted, Error>

  datatype BookingRequest = BookingRequest(
    customerId: Option<CustomerId>,
    carId: CarId,
    startDate: DateInput,
    endDate: DateInput,
    pickupLocation: Option<string>,
    dropoffLocation: Option<string>,
    extras: Option<seq<Extra>>,
    notes: Option<string>,
    depositAmount: Option<real>)

  /** The optional columns can be sent as `null`; in the others `null` is no row the table accepts. */
  datatype BookingPatch = BookingPatch(
    startDate: Option<DateInput>,
    endDate: Option<DateInput>,
    pickupLocation: Sent<string>,
    dropoffLocation: Sent<string>,
    additionalDrivers: Sent<seq<string>>,
    extras: Sent<seq<Extra>>,
    notes: Sent<string>,
    depositAmount: Option<real>,
    depositPaid: Option<bool>,
    status: Option<BookingStatus>)

  const NO_CHANGE := BookingPatch(None, None, Absent, Absent, Absent, Absent, Absent, None, None, None)

  datatype ContractData = ContractData(
    customerId: Option<CustomerId>,
    carId: CarId,
    startDay: Day,
    endDay: Day,
    dailyRate: real,
    totalAmount: real)

  datatype ContractPatch = ContractPatch(
    customerId: Option<CustomerId>,
    carId: Option<CarId>,
    startDay: Option<Day>,
    endDay: Option<Day>,
    dailyRate: Option<real>,
    totalAmount: Option<real>,
    notificationSent: Option<bool>)

  // ---------- Queries ----------

  predicate Overlaps(start1: Day, end1: Day, start2: Day, end2: Day) {
    start1 <= end2 && end1 >= start2
  }

  function ConflictingBookings(bookings: map<BookingId, Booking>, carId: CarId, start: Day, end: Day,
                               exclude: Option<BookingId>): set<BookingId>
  {
    set id | id in bookings
             && bookings[id].carId == carId
             && Active(bookings[id].status)
             && Overlaps(bookings[id].startDay, bookings[id].endDay, start, end)
             && exclude != Some(id)
  }

  predicate CheckCarAvailability(bookings: map<BookingId, Booking>, carId: CarId, start: Day, end: Day,
                                 exclude: Option<BookingId>)
  {
    |ConflictingBookings(bookings, carId, start, end, exclude)| == 0
  }

  function ConflictingContracts(contracts: map<ContractId, Contract>, carId: CarId, start: Day, end: Day,
                                exclude: Option<ContractId>): set<ContractId>
  {
    set id | id in contracts
             && contracts[id].carId == carId
             && Overlaps(contracts[id].startDay, contracts[id].endDay, start, end)
             && exclude != Some(id)
  }

  predicate IsCarAvailable(contracts: map<ContractId, Contract>, carId: CarId, start: Day, end: Day,
                           exclude: Option<ContractId>)
  {
    |ConflictingContracts(contracts, carId, start, end, exclude)| == 0
  }

  function ExpiredBookings(bookings: map<BookingId, Booking>, now: Millis): set<BookingId> {
    set id | id in bookings && Active(bookings[id].status) && bookings[id].expiresAt < now
  }

  function FindActiveContracts(contracts: map<ContractId, Contract>, today: Day): set<ContractId> {
    set id | id in contracts && contracts[id].startDay <= today <= contracts[id].endDay
  }

  // ---------- Booking calls ----------

  predicate ValidTransition(current: BookingStatus, next: BookingStatus) {
    match current
    case Pending => next in {Confirmed, Cancelled, Expired}
    case Confirmed => next in {Cancelled, Converted, Expired}
    case _ => false
  }

  function CreateBooking(st: Store, data: BookingRequest, user: UserId, now: Millis): Outcome {
    if data.carId !in st.cars then Err(CarNotFound)
    else if st.cars[data.carId].status != Available then Err(CarNotAvailable)
    else if data.startDate.InvalidDate? then Err(InvalidStartDate)
    else if data.endDate.InvalidDate? then Err(InvalidEndDate)
    else
      var start, end := data.startDate.at, data.endDate.at;
      var invalid := ValidateDates(start, end, now);
      if invalid.Some? then Err(invalid.value)
      else
        var conflicts := ConflictingBookings(st.bookings, data.carId, DayOf(start), DayOf(end), None);
        if |conflicts| != 0 then Err(Conflict(|conflicts|))
        else
          var total := TotalCost(st.cars[data.carId].pricePerDay, data.extras, start, end);
          var booking := Booking(
            customerId := data.customerId,
            carId := data.carId,
            startDay := DayOf(start),
            endDay := DayOf(end),
            pickupLocation := data.pickupLocation,
            dropoffLocation := data.dropoffLocation,
            additionalDrivers := None,
            extras := data.extras,
            notes := data.notes,
            totalEstimatedCost := total,
            depositAmount := data.depositAmount.GetOr(total * 0.3),
            depositPaid := false,
            status := Pending,
            expiresAt := CalculateExpirationDate(start, now),
            createdBy := user,
            updatedBy := None,
            cancelledAt := None,
            cancellationReason := None,
            convertedToContractId := None,
            convertedAt := None);
          var id := st.nextBooking;
          Ok(Accepted(st.(bookings := st.bookings[id := booking], nextBooking := id + 1), id))
  }

  /** The fields that `update` copies without looking at the dates. */
  function CopyPlainFields(b: Booking, data: BookingPatch, user: UserId): Booking {
    b.(pickupLocation := data.pickupLocation.Copied(b.pickupLocation),
       dropoffLocation := data.dropoffLocation.Copied(b.dropoffLocation),
       additionalDrivers := data.additionalDrivers.Copied(b.additionalDrivers),
       extras := data.extras.Copied(b.extras),
       notes := data.notes.Copied(b.notes),
       depositAmount := data.depositAmount.GetOr(b.depositAmount),
       depositPaid := data.depositPaid.GetOr(b.depositPaid),
       status := data.status.GetOr(b.status),
       updatedBy := Some(user))
  }

  /** The dates a booking will have once the patch is applied; an absent date keeps the stored day. */
  function MergedStart(b: Booking, data: BookingPatch): DateInput {
    data.startDate.GetOr(Instant(Midnight(b.startDay)))
  }

  function MergedEnd(b: Booking, data: BookingPatch): DateInput {
    data.endDate.GetOr(Instant(Midnight(b.endDay)))
  }

  /** The row `plain` with the merged dates and their price, if the dates are valid and free. */
  function Rescheduled(st: Store, id: BookingId, b: Booking, plain: Booking, data: BookingPatch, now: Millis)
    : Result<Booking, Error>
  {
    if MergedStart(b, data).InvalidDate? then Err(InvalidStartDate)
    else if MergedEnd(b, data).InvalidDate? then Err(InvalidEndDate)
    else
      var start, end := MergedStart(b, data).at, MergedEnd(b, data).at;
      var invalid := ValidateDates(start, end, now);
      if invalid.Some? then Err(invalid.value)
      else if !CheckCarAvailability(st.bookings, b.carId, DayOf(start), DayOf(end), Some(id)) then Err(DatesTaken)
      else
        Ok(plain.(
          startDay := if data.startDate.Some? then DayOf(start) else plain.startDay,
          endDay := if data.endDate.Some? then DayOf(end) else plain.endDay,
          totalEstimatedCost :=
            if b.carId in st.cars
            then TotalCost(st.cars[b.carId].pricePerDay, data.extras.OrElse(b.extras), start, end)
            else plain.totalEstimatedCost))
  }

  function UpdateBooking(st: Store, id: BookingId, data: BookingPatch, user: UserId, now: Millis): Outcome {
    if id !in st.bookings then Err(NotFound)
    else
      var b := st.bookings[id];
      if data.status.Some? && !ValidTransition(b.status, data.status.value) then Err(InvalidTransition)
      else
        var plain := CopyPlainFields(b, data, user);
        if data.startDate.None? && data.endDate.None? then
          Ok(Accepted(st.(bookings := st.bookings[id := plain]), id))
        else
          match Rescheduled(st, id, b, plain, data, now)
          case Err(e) => Err(e)
          case Ok(row) => Ok(Accepted(st.(bookings := st.bookings[id := row]), id))
  }

  function ConfirmBooking(st: Store, id: BookingId, user: UserId, now: Millis): Outcome {
    if id !in st.bookings then Err(NotFound)
    else if st.bookings[id].status != Pending then Err(NotPending)
    else if !st.bookings[id].depositPaid then Err(DepositNotPaid)
    else if now > st.bookings[id].expiresAt then Err(DeadlinePassed)
    else UpdateBooking(st, id, NO_CHANGE.(status := Some(Confirmed)), user, now)
  }

  function CancelBooking(st: Store, id: BookingId, reason: string, user: UserId, now: Millis): Outcome {
    if |Trim(reason)| < MIN_REASON_LENGTH then Err(ReasonTooShort)
    else if id !in st.bookings then Err(NotFound)
    else if st.bookings[id].status == Cancelled then Err(AlreadyCancelled)
    else if st.bookings[id].status == Converted then Err(AlreadyConverted)
    else
      var b := st.bookings[id].(status := Cancelled, cancelledAt := Some(now),
                                cancellationReason := Some(reason), updatedBy := Some(user));
      Ok(Accepted(st.(bookings := st.bookings[id := b]), id))
  }

  function ExpireBooking(st: Store, id: BookingId, user: UserId, now: Millis): Outcome {
    if id !in st.bookings then Err(NotFound)
    else if !Active(st.bookings[id].status) then Err(NotActive)
    else UpdateBooking(st, id, NO_CHANGE.(status := Some(Expired)), user, now)
  }

  function BulkUpdateStatus(bookings: map<BookingId, Booking>, ids: set<BookingId>, status: BookingStatus,
                            user: UserId): map<BookingId, Booking>
  {
    map id | id in bookings ::
      if id in ids then bookings[id].(status := status, updatedBy := Some(user)) else bookings[id]
  }

  /** How a bulk expiry can go: the search, the bulk write, or reading the written rows again may fail. */
  datatype Fault = NoFault | FindFails | BulkFails | RefetchFails

  datatype ExpireReport = ExpireReport(expired: nat, bookings: set<BookingId>, failed: nat)

  function ExpireBookings(st: Store, now: Millis, fault: Fault): (Store, ExpireReport) {
    var ids := ExpiredBookings(st.bookings, now);
    var after := st.(bookings := BulkUpdateStatus(st.bookings, ids, Expired, SYSTEM));
    match fault
    case FindFails => (st, ExpireReport(0, {}, 0))
    case BulkFails => (st, ExpireReport(0, {}, |ids|))
    case RefetchFails => (after, ExpireReport(0, {}, |ids|))
    case NoFault => (after, ExpireReport(|ids|, ids, 0))
  }

  /** The other bookings that keep a car from being given back: pending, confirmed or converted. */
  function HoldingBookings(bookings: map<BookingId, Booking>, carId: CarId, except: BookingId): set<BookingId> {
    set id | id in bookings && bookings[id].carId == carId && id != except
             && (Active(bookings[id].status) || bookings[id].status == Converted)
  }

  /** One scheduler task run without interruption: save, count, give the car back. */
  function SchedulerExpire(st: Store, id: BookingId, now: Millis): Outcome {
    if id !in ExpiredBookings(st.bookings, now) then Err(NotActive)
    else
      var carId := st.bookings[id].carId;
      var bookings := st.bookings[id := st.bookings[id].(status := Expired)];
      var cars := if HoldingBookings(bookings, carId, id) == {} && carId in st.cars
                  then st.cars[carId := st.cars[carId].(status := Available)] else st.cars;
      Ok(Accepted(st.(bookings := bookings, cars := cars), id))
  }

  function DeleteBooking(st: Store, id: BookingId): Outcome {
    if id !in st.bookings then Err(NotFound)
    else Ok(Accepted(st.(bookings := st.bookings - {id}), id))
  }

  // ---------- Contract calls ----------

  function CreateContract(st: Store, data: ContractData, user: UserId): Outcome {
    if data.customerId.None? || data.customerId.value !in st.customers then Err(CustomerNotFound)
    else if data.carId !in st.cars || st.cars[data.carId].isDeleted then Err(CarNotFound)
    else
      var conflicts := ConflictingContracts(st.contracts, data.carId, data.startDay, data.endDay, None);
      if |conflicts| != 0 then Err(DatesTaken)
      else
        var contract := Contract(
          customerId := data.customerId.value,
          carId := data.carId,
          startDay := data.startDay,
          endDay := data.endDay,
          dailyRate := data.dailyRate,
          totalAmount := data.totalAmount,
          notificationSent := false,
          createdBy := user,
          updatedBy := None);
        var id := st.nextContract;
        Ok(Accepted(st.(contracts := st.contracts[id := contract], nextContract := id + 1), id))
  }

  function UpdateContract(st: Store, id: ContractId, data: ContractPatch, user: UserId): Outcome {
    if id !in st.contracts then Err(NotFound)
    else
      var c := st.contracts[id];
      var carId := data.carId.GetOr(c.carId);
      var start, end := data.startDay.GetOr(c.startDay), data.endDay.GetOr(c.endDay);
      var conflicts := ConflictingContracts(st.contracts, carId, start, end, Some(id));
      if (data.carId.Some? || data.startDay.Some? || data.endDay.Some?) && |conflicts| != 0 then
        Err(DatesTaken)
      else if data.customerId.Some? && data.customerId.value !in st.customers then Err(CustomerNotFound)
      else if data.carId.Some? && (carId !in st.cars || st.cars[carId].isDeleted) then Err(CarNotFound)
      else
        var updated := c.(
          customerId := data.customerId.GetOr(c.customerId),
          carId := carId,
          startDay := start,
          endDay := end,
          dailyRate := data.dailyRate.GetOr(c.dailyRate),
          totalAmount := data.totalAmount.GetOr(c.totalAmount),
          notificationSent := data.notificationSent.GetOr(c.notificationSent),
          updatedBy := Some(user));
        Ok(Accepted(st.(contracts := st.contracts[id := updated]), id))
  }

  function DeleteContract(st: Store, id: ContractId): Outcome {
    if id !in st.contracts then Err(NotFound)
    else Ok(Accepted(st.(contracts := st.contracts - {id}), id))
  }

  /** The contract a booking turns into. */
  function ContractFor(b: Booking, dailyRate: real): ContractData {
    ContractData(b.customerId, b.carId, b.startDay, b.endDay, dailyRate, b.totalEstimatedCost)
  }

  /** The identifier is that of the new contract. */
  function ConvertToContract(st: Store, id: BookingId, user: UserId, now: Millis): Outcome {
    if id !in st.bookings then Err(NotFound)
    else
      var b := st.bookings[id];
      if b.status != Confirmed then Err(NotConfirmed)
      else if !b.depositPaid then Err(DepositNotPaid)
      else if now > b.expiresAt then Err(DeadlinePassed)
      else if b.carId !in st.cars then Err(CarNotFound)
      else
        match CreateContract(st, ContractFor(b, st.cars[b.carId].pricePerDay), user)
        case Err(e) => Err(e)
        case Ok(made) =>
          var converted := b.(status := Converted, convertedToContractId := Some(made.id),
                              convertedAt := Some(now), updatedBy := Some(user));
          Ok(Accepted(made.store.(bookings := st.bookings[id := converted]), made.id))
  }

  // ---------- Calls and runs ----------

  /** Every route that writes the tables, and arbitrary writes of car and customer rows by others. */
  datatype Call =
    | Create(data: BookingRequest, user: UserId)
    | Update(id: BookingId, patch: BookingPatch, user: UserId)
    | Confirm(id: BookingId, user: UserId)
    | Cancel(id: BookingId, reason: string, user: UserId)
    | Convert(id: BookingId, user: UserId)
    | Expire(id: BookingId, user: UserId)
    | ExpireAll(fault: Fault)
    | ExpireScheduled(id: BookingId)
    | Delete(id: BookingId)
    | NewContract(contract: ContractData, user: UserId)
    | ChangeContract(contractId: ContractId, change: ContractPatch, user: UserId)
    | DropContract(contractId: ContractId)
    | WriteCar(carId: CarId, car: Option<Car>)
    | WriteCustomers(customers: set<CustomerId>)

  function Perform(st: Store, call: Call, now: Millis): Outcome {
    match call
    case Create(data, user) => CreateBooking(st, data, user, now)
    case Update(id, patch, user) => UpdateBooking(st, id, patch, user, now)
    case Confirm(id, user) => ConfirmBooking(st, id, user, now)
    case Cancel(id, reason, user) => CancelBooking(st, id, reason, user, now)
    case Convert(id, user) => ConvertToContract(st, id, user, now)
    case Expire(id, user) => ExpireBooking(st, id, user, now)
    case ExpireAll(fault) => var (after, report) := ExpireBookings(st, now, fault); Ok(Accepted(after, report.expired))
    case ExpireScheduled(id) => SchedulerExpire(st, id, now)
    case Delete(id) => DeleteBooking(st, id)
    case NewContract(contract, user) => CreateContract(st, contract, user)
    case ChangeContract(id, change, user) => UpdateContract(st, id, change, user)
    case DropContract(id) => DeleteContract(st, id)
    case WriteCar(carId, car) =>
      Ok(Accepted(st.(cars := if car.Some? then st.cars[carId := car.value] else st.cars - {carId}), carId))
    case WriteCustomers(customers) => Ok(Accepted(st.(customers := customers), 0))
  }

  /** A rejected call leaves the store as it was. */
  function After(st: Store, call: Call, now: Millis): Store {
    match Perform(st, call, now)
    case Ok(done) => done.store
    case Err(_) => st
  }

  /** A call and the time at which it is served. Nothing is assumed about the clock. */
  datatype Event = Event(call: Call, now: Millis)

  function Run(st: Store, events: seq<Event>): Store {
    if events == [] then st
    else
      var last := events[|events| - 1];
      After(Run(st, events[..|events| - 1]), last.call, last.now)
  }
}
