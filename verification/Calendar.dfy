/**
 The two calendars, of bookings and of contracts: who covers which car on which day. No run of
 the service calls ever puts two active bookings, or two contracts, on the same car and day.
 */
module Calendar {
  import opened Wrappers
  import opened Rental
  import opened Reservations

  predicate Covers(b: Booking, carId: CarId, day: Day) {
    Active(b.status) && b.carId == carId && b.startDay <= day <= b.endDay
  }

  /** The active bookings that hold a car on a day. */
  function Occupants(bookings: map<BookingId, Booking>, carId: CarId, day: Day): set<BookingId> {
    set id | id in bookings && Covers(bookings[id], carId, day)
  }

  function ContractOccupants(contracts: map<ContractId, Contract>, carId: CarId, day: Day): set<ContractId> {
    set id | id in contracts && contracts[id].carId == carId && contracts[id].startDay <= day <= contracts[id].endDay
  }

  // ---------- The invariant ----------

  ghost predicate BookingsApart(bookings: map<BookingId, Booking>) {
    forall i, j | i in bookings && j in bookings && i != j ::
      Active(bookings[i].status) && Active(bookings[j].status) && bookings[i].carId == bookings[j].carId ==>
        !Overlaps(bookings[i].startDay, bookings[i].endDay, bookings[j].startDay, bookings[j].endDay)
  }

  ghost predicate BookingsOrdered(bookings: map<BookingId, Booking>) {
    forall i | i in bookings :: bookings[i].startDay <= bookings[i].endDay
  }

  /** Contracts may be stored with their dates the wrong way round; such a contract covers no day. */
  ghost predicate ContractsApart(contracts: map<ContractId, Contract>) {
    forall i, j | i in contracts && j in contracts && i != j ::
      contracts[i].carId == contracts[j].carId
      && contracts[i].startDay <= contracts[i].endDay && contracts[j].startDay <= contracts[j].endDay ==>
        !Overlaps(contracts[i].startDay, contracts[i].endDay, contracts[j].startDay, contracts[j].endDay)
  }

  ghost predicate FreshIds(st: Store) {
    && (forall id | id in st.bookings :: id < st.nextBooking)
    && (forall id | id in st.contracts :: id < st.nextContract)
  }

  ghost predicate Inv(st: Store) {
    && FreshIds(st)
    && BookingsOrdered(st.bookings)
    && BookingsApart(st.bookings)
    && ContractsApart(st.contracts)
  }

  // ---------- What the overlap queries mean ----------

  /**
   For stored bookings, the overlap query answers whether every requested day is free, the excluded
   booking aside. A request whose dates are the wrong way round is refused only by a booking that
   covers both its ends.
   */
  lemma AvailableIffEveryDayIsFree(bookings: map<BookingId, Booking>, carId: CarId, start: Day, end: Day,
                                   exclude: Option<BookingId>)
    requires BookingsOrdered(bookings)
    ensures CheckCarAvailability(bookings, carId, start, end, exclude) <==>
            if start <= end
            then forall day | start <= day <= end ::
                   forall id | id in Occupants(bookings, carId, day) :: exclude == Some(id)
            else forall id | id in Occupants(bookings, carId, end) && id in Occupants(bookings, carId, start) ::
                   exclude == Some(id)
  {
    var conflicts := ConflictingBookings(bookings, carId, start, end, exclude);
    if CheckCarAvailability(bookings, carId, start, end, exclude) {
      assert conflicts == {};
      forall day, id | id in Occupants(bookings, carId, day) && exclude != Some(id)
        ensures !(start <= day <= end)
        ensures day == end ==> id !in Occupants(bookings, carId, start)
      {
        assert id !in conflicts;
      }
    } else {
      var id :| id in conflicts;
      var b := bookings[id];
      var day := if b.startDay <= start then start else b.startDay;
      assert start <= end ==> start <= day <= end && id in Occupants(bookings, carId, day);
      assert start > end ==> id in Occupants(bookings, carId, end) && id in Occupants(bookings, carId, start);
    }
  }

  /** A contract stored the wrong way round that blocks a request lying across it, although it covers no day. */
  predicate Straddles(c: Contract, carId: CarId, start: Day, end: Day) {
    c.carId == carId && start <= c.endDay < c.startDay <= end
  }

  /**
   The contract query never misses a taken day; it refuses a free period exactly when a contract
   with its dates the wrong way round lies inside the period. A request with its own dates the wrong
   way round is refused only by a contract that covers both its ends.
   */
  lemma ContractQueryExactly(contracts: map<ContractId, Contract>, carId: CarId, start: Day, end: Day,
                             exclude: Option<ContractId>)
    ensures IsCarAvailable(contracts, carId, start, end, exclude) <==>
            if start <= end
            then
              && (forall day | start <= day <= end ::
                    forall id | id in ContractOccupants(contracts, carId, day) :: exclude == Some(id))
              && (forall id | id in contracts && Straddles(contracts[id], carId, start, end) :: exclude == Some(id))
            else
              forall id ::
                id in ContractOccupants(contracts, carId, end) && id in ContractOccupants(contracts, carId, start) ==>
                  exclude == Some(id)
  {
    var conflicts := ConflictingContracts(contracts, carId, start, end, exclude);
    if IsCarAvailable(contracts, carId, start, end, exclude) {
      assert conflicts == {};
      forall day, id | id in ContractOccupants(contracts, carId, day) && exclude != Some(id)
        ensures !(start <= day <= end)
        ensures day == end ==> id !in ContractOccupants(contracts, carId, start)
      {
        assert id !in conflicts;
      }
      forall id | id in contracts && Straddles(contracts[id], carId, start, end)
        ensures exclude == Some(id)
      {
        assert id !in conflicts;
      }
    } else {
      var id :| id in conflicts;
      var c := contracts[id];
      var day := if c.startDay <= start then start else c.startDay;
      assert start <= end && c.startDay <= c.endDay ==>
          start <= day <= end && id in ContractOccupants(contracts, carId, day);
      assert start <= end && c.startDay > c.endDay ==> Straddles(c, carId, start, end);
      assert start > end ==>
          id in ContractOccupants(contracts, carId, end) && id in ContractOccupants(contracts, carId, start);
    }
  }

  // ---------- Every call keeps the invariant ----------

  lemma PutBookingKeepsApart(bookings: map<BookingId, Booking>, id: BookingId, b: Booking)
    requires BookingsApart(bookings) && BookingsOrdered(bookings) && b.startDay <= b.endDay
    requires Active(b.status) ==> CheckCarAvailability(bookings, b.carId, b.startDay, b.endDay, Some(id))
    ensures BookingsApart(bookings[id := b]) && BookingsOrdered(bookings[id := b])
  {
    if Active(b.status) {
      var conflicts := ConflictingBookings(bookings, b.carId, b.startDay, b.endDay, Some(id));
      forall j | j in bookings && j != id && Active(bookings[j].status) && bookings[j].carId == b.carId
        ensures !Overlaps(bookings[j].startDay, bookings[j].endDay, b.startDay, b.endDay)
      {
        assert j !in conflicts;
      }
    }
  }

  lemma CreateKeepsInv(st: Store, data: BookingRequest, user: UserId, now: Millis)
    requires Inv(st) && CreateBooking(st, data, user, now).Ok?
    ensures Inv(CreateBooking(st, data, user, now).value.store)
  {
    var done := CreateBooking(st, data, user, now).value;
    var b := done.store.bookings[done.id];
    ValidDatesExactly(data.startDate.at, data.endDate.at, now);
    assert ConflictingBookings(st.bookings, b.carId, b.startDay, b.endDay, Some(done.id))
        == ConflictingBookings(st.bookings, b.carId, b.startDay, b.endDay, None);
    PutBookingKeepsApart(st.bookings, done.id, b);
  }

  lemma UpdateKeepsInv(st: Store, id: BookingId, data: BookingPatch, user: UserId, now: Millis)
    requires Inv(st) && UpdateBooking(st, id, data, user, now).Ok?
    ensures Inv(UpdateBooking(st, id, data, user, now).value.store)
  {
    var b := st.bookings[id];
    var after := UpdateBooking(st, id, data, user, now).value.store;
    if data.startDate.Some? || data.endDate.Some? {
      ValidDatesExactly(MergedStart(b, data).at, MergedEnd(b, data).at, now);
      PutBookingKeepsApart(st.bookings, id, after.bookings[id]);
    } else if Active(b.status) {
      assert ConflictingBookings(st.bookings, b.carId, b.startDay, b.endDay, Some(id)) == {};
      PutBookingKeepsApart(st.bookings, id, after.bookings[id]);
    } else {
      PutBookingKeepsApart(st.bookings, id, after.bookings[id]);
    }
  }

  lemma PutContractKeepsApart(contracts: map<ContractId, Contract>, id: ContractId, c: Contract)
    requires ContractsApart(contracts)
    requires IsCarAvailable(contracts, c.carId, c.startDay, c.endDay, Some(id))
    ensures ContractsApart(contracts[id := c])
  {
    var conflicts := ConflictingContracts(contracts, c.carId, c.startDay, c.endDay, Some(id));
    forall j | j in contracts && j != id && contracts[j].carId == c.carId
      ensures !Overlaps(contracts[j].startDay, contracts[j].endDay, c.startDay, c.endDay)
    {
      assert j !in conflicts;
    }
  }

  lemma CreateContractKeepsInv(st: Store, data: ContractData, user: UserId)
    requires Inv(st) && CreateContract(st, data, user).Ok?
    ensures Inv(CreateContract(st, data, user).value.store)
  {
    var done := CreateContract(st, data, user).value;
    var c := done.store.contracts[done.id];
    assert ConflictingContracts(st.contracts, c.carId, c.startDay, c.endDay, Some(done.id))
        == ConflictingContracts(st.contracts, c.carId, c.startDay, c.endDay, None);
    PutContractKeepsApart(st.contracts, done.id, c);
  }

  lemma UpdateContractKeepsInv(st: Store, id: ContractId, data: ContractPatch, user: UserId)
    requires Inv(st) && UpdateContract(st, id, data, user).Ok?
    ensures Inv(UpdateContract(st, id, data, user).value.store)
  {
    var c := UpdateContract(st, id, data, user).value.store.contracts[id];
    if data.carId.Some? || data.startDay.Some? || data.endDay.Some? {
      PutContractKeepsApart(st.contracts, id, c);
    } else {
      assert c.carId == st.contracts[id].carId && c.startDay == st.contracts[id].startDay
          && c.endDay == st.contracts[id].endDay;
    }
  }

  /** The later table has no new bookings and no moved ones, and none became active. */
  ghost predicate WoundDown(before: map<BookingId, Booking>, after: map<BookingId, Booking>) {
    forall id | id in after ::
      && id in before && after[id].carId == before[id].carId
      && after[id].startDay == before[id].startDay && after[id].endDay == before[id].endDay
      && (Active(after[id].status) ==> Active(before[id].status))
  }

  ghost predicate NoNewContracts(before: map<ContractId, Contract>, after: map<ContractId, Contract>) {
    forall id | id in after :: id in before && after[id] == before[id]
  }

  lemma WoundDownKeepsInv(st: Store, after: Store)
    requires Inv(st) && WoundDown(st.bookings, after.bookings) && NoNewContracts(st.contracts, after.contracts)
    requires st.nextBooking <= after.nextBooking && st.nextContract <= after.nextContract
    ensures Inv(after)
  {
  }

  lemma BulkExpiryKeepsInv(st: Store, now: Millis, fault: Fault)
    requires Inv(st)
    ensures Inv(ExpireBookings(st, now, fault).0)
  {
    WoundDownKeepsInv(st, ExpireBookings(st, now, fault).0);
  }

  lemma CancellingKeepsInv(st: Store, id: BookingId, reason: string, user: UserId, now: Millis)
    requires Inv(st) && CancelBooking(st, id, reason, user, now).Ok?
    ensures Inv(CancelBooking(st, id, reason, user, now).value.store)
  {
    WoundDownKeepsInv(st, CancelBooking(st, id, reason, user, now).value.store);
  }

  lemma ScheduledExpiryKeepsInv(st: Store, id: BookingId, now: Millis)
    requires Inv(st) && SchedulerExpire(st, id, now).Ok?
    ensures Inv(SchedulerExpire(st, id, now).value.store)
  {
  }

  lemma DeletingKeepsInv(st: Store, bookingId: BookingId, contractId: ContractId)
    requires Inv(st)
    ensures Inv(st.(bookings := st.bookings - {bookingId})) && Inv(st.(contracts := st.contracts - {contractId}))
  {
  }

  /** The calls that bring no booking or contract in and move none. */
  predicate Removes(call: Call) {
    call.Cancel? || call.ExpireAll? || call.ExpireScheduled? || call.Delete? || call.DropContract?
    || call.WriteCar? || call.WriteCustomers?
  }

  lemma RemovalKeepsInv(st: Store, call: Call, now: Millis)
    requires Inv(st) && Removes(call)
    ensures Inv(After(st, call, now))
  {
    if Perform(st, call, now).Ok? {
      match call
      case Cancel(id, reason, user) => CancellingKeepsInv(st, id, reason, user, now);
      case ExpireAll(fault) => BulkExpiryKeepsInv(st, now, fault);
      case ExpireScheduled(id) => ScheduledExpiryKeepsInv(st, id, now);
      case Delete(id) => DeletingKeepsInv(st, id, 0);
      case DropContract(id) => DeletingKeepsInv(st, 0, id);
      case _ =>
    }
  }

  lemma CallKeepsInv(st: Store, call: Call, now: Millis)
    requires Inv(st)
    ensures Inv(After(st, call, now))
  {
    if Perform(st, call, now).Ok? {
      match call
      case Create(data, user) => CreateKeepsInv(st, data, user, now);
      case Update(id, patch, user) => UpdateKeepsInv(st, id, patch, user, now);
      case Confirm(id, user) => UpdateKeepsInv(st, id, NO_CHANGE.(status := Some(Confirmed)), user, now);
      case Expire(id, user) => UpdateKeepsInv(st, id, NO_CHANGE.(status := Some(Expired)), user, now);
      case Convert(id, user) =>
        CreateContractKeepsInv(st, ContractFor(st.bookings[id], st.cars[st.bookings[id].carId].pricePerDay), user);
      case NewContract(contract, user) => CreateContractKeepsInv(st, contract, user);
      case ChangeContract(id, change, user) => UpdateContractKeepsInv(st, id, change, user);
      case _ => RemovalKeepsInv(st, call, now);
    }
  }

  /** The empty tables satisfy the invariant, and so do the tables after any run from tables that do. */
  lemma {:induction false} RunKeepsInv(st: Store, events: seq<Event>)
    requires Inv(st)
    ensures Inv(EMPTY) && Inv(Run(st, events))
  {
    if events == [] {
    } else {
      var last := events[|events| - 1];
      RunKeepsInv(st, events[..|events| - 1]);
      CallKeepsInv(Run(st, events[..|events| - 1]), last.call, last.now);
    }
  }

  // ---------- No double booking ----------

  lemma AtMostOne<T>(s: set<T>)
    requires forall x, y | x in s && y in s :: x == y
    ensures |s| <= 1
  {
    if s != {} {
      var x :| x in s;
      assert s == {x};
    }
  }

  /** After any run, each car is held by at most one active booking, and by at most one contract, on each day. */
  lemma NoDoubleBooking(st: Store, events: seq<Event>, carId: CarId, day: Day)
    requires Inv(st)
    ensures |Occupants(Run(st, events).bookings, carId, day)| <= 1
    ensures |ContractOccupants(Run(st, events).contracts, carId, day)| <= 1
  {
    RunKeepsInv(st, events);
    AtMostOne(Occupants(Run(st, events).bookings, carId, day));
    AtMostOne(ContractOccupants(Run(st, events).contracts, carId, day));
  }

  /** Hence the list of today's contracts never shows a car twice. */
  lemma ActiveContractsNameEachCarOnce(st: Store, events: seq<Event>, today: Day, i: ContractId, j: ContractId)
    requires Inv(st)
    requires i in FindActiveContracts(Run(st, events).contracts, today)
    requires j in FindActiveContracts(Run(st, events).contracts, today)
    requires Run(st, events).contracts[i].carId == Run(st, events).contracts[j].carId
    ensures i == j
  {
    RunKeepsInv(st, events);
  }

  // ---------- The bookings refine a calendar of reserved days ----------

  /** The bookings whose days a call may add or give back. */
  function Touched(st: Store, call: Call, now: Millis): set<BookingId> {
    match call
    case Create(_, _) => {st.nextBooking}
    case Update(id, _, _) => {id}
    case Confirm(id, _) => {id}
    case Cancel(id, _, _) => {id}
    case Convert(id, _) => {id}
    case Expire(id, _) => {id}
    case ExpireScheduled(id) => {id}
    case Delete(id) => {id}
    case ExpireAll(_) => ExpiredBookings(st.bookings, now)
    case _ => {}
  }

  /** The calls that end in an update of the row they name. */
  function UpdateBehind(call: Call): Option<BookingPatch> {
    match call
    case Update(_, patch, _) => Some(patch)
    case Confirm(_, _) => Some(NO_CHANGE.(status := Some(Confirmed)))
    case Expire(_, _) => Some(NO_CHANGE.(status := Some(Expired)))
    case _ => None
  }

  lemma UpdateTouchesOneRow(st: Store, id: BookingId, data: BookingPatch, user: UserId, now: Millis, other: BookingId)
    requires UpdateBooking(st, id, data, user, now).Ok? && other != id
    ensures var after := UpdateBooking(st, id, data, user, now).value.store;
            && (other in st.bookings <==> other in after.bookings)
            && (other in st.bookings ==> after.bookings[other] == st.bookings[other])
  {
  }

  lemma OthersAreUntouched(st: Store, call: Call, now: Millis, id: BookingId)
    requires id !in Touched(st, call, now)
    ensures id in st.bookings <==> id in After(st, call, now).bookings
    ensures id in st.bookings ==> After(st, call, now).bookings[id] == st.bookings[id]
  {
    if UpdateBehind(call).Some? && Perform(st, call, now).Ok? {
      UpdateTouchesOneRow(st, call.id, UpdateBehind(call).value, call.user, now, id);
    }
  }

  /**
   Seen as a calendar, a call only gives back days of the bookings it is about, or reserves days that
   no other booking holds: the days of every other booking stay as they were.
   */
  lemma CallsTakeOnlyFreeDays(st: Store, call: Call, now: Millis, carId: CarId, day: Day)
    requires Inv(st)
    ensures var before := Occupants(st.bookings, carId, day);
            var after := Occupants(After(st, call, now).bookings, carId, day);
            var own := Touched(st, call, now);
            && after - own == before - own
            && (after * own != {} ==> before - own == {})
  {
    var after := After(st, call, now);
    var own := Touched(st, call, now);
    CallKeepsInv(st, call, now);
    forall id | id !in own
      ensures id in Occupants(after.bookings, carId, day) <==> id in Occupants(st.bookings, carId, day)
    {
      OthersAreUntouched(st, call, now, id);
    }
  }

  lemma AddedOccupant(bookings: map<BookingId, Booking>, id: BookingId, b: Booking, carId: CarId, day: Day)
    requires id !in bookings
    ensures Occupants(bookings[id := b], carId, day)
         == Occupants(bookings, carId, day) + if Covers(b, carId, day) then {id} else {}
  {
  }

  /** A created booking reserves precisely the requested days, for the next identifier. */
  lemma CreateReserves(st: Store, data: BookingRequest, user: UserId, now: Millis, carId: CarId, day: Day)
    requires FreshIds(st) && CreateBooking(st, data, user, now).Ok?
    ensures var done := CreateBooking(st, data, user, now).value;
            && Occupants(done.store.bookings, carId, day)
               == Occupants(st.bookings, carId, day)
                  + (if carId == data.carId && DayOf(data.startDate.at) <= day <= DayOf(data.endDate.at)
                     then {done.id} else {})
            && done.id !in st.bookings
            && done.store.contracts == st.contracts && done.store.cars == st.cars
  {
    var done := CreateBooking(st, data, user, now).value;
    AddedOccupant(st.bookings, done.id, done.store.bookings[done.id], carId, day);
  }

  // ---------- Bookings and contracts together ----------

  /** No day has both an active booking and a contract for the same car. */
  ghost predicate JointlyExclusive(st: Store, carId: CarId) {
    forall day :: Occupants(st.bookings, carId, day) == {} || ContractOccupants(st.contracts, carId, day) == {}
  }

  /**
   The booking check does not look at contracts, so a new booking keeps the two calendars of its car
   disjoint if and only if no contract covers a requested day.
   */
  lemma BookingOverContractsExactly(st: Store, data: BookingRequest, user: UserId, now: Millis)
    requires Inv(st) && JointlyExclusive(st, data.carId)
    requires CreateBooking(st, data, user, now).Ok?
    ensures JointlyExclusive(CreateBooking(st, data, user, now).value.store, data.carId) <==>
            forall day | DayOf(data.startDate.at) <= day <= DayOf(data.endDate.at) ::
              ContractOccupants(st.contracts, data.carId, day) == {}
  {
    var done := CreateBooking(st, data, user, now).value;
    var start, end := DayOf(data.startDate.at), DayOf(data.endDate.at);
    forall day
      ensures Occupants(done.store.bookings, data.carId, day)
           == Occupants(st.bookings, data.carId, day) + if start <= day <= end then {done.id} else {}
      ensures start <= day <= end ==> done.id in Occupants(done.store.bookings, data.carId, day)
    {
      CreateReserves(st, data, user, now, data.carId, day);
    }
  }
}
