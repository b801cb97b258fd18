/**
 Inputs for which the code does not do what its documentation or its names suggest. For each, the
 lemma named in its comment says exactly when the code does.
 */
module Counterexamples {
  import opened Wrappers
  import opened Rental
  import opened Reservations
  import opened Calendar
  import opened Conversion
  import opened ExpiryTask
  import Lifecycle
  import ExpiryLoop
  import BookingScheduler
  import Csv
  import Redaction
  import CostAnalytics
  import MaintenanceAlerts
  import FleetMaintenance

  const CAR := Car(Available, 50.0, false)

  const REQUEST := BookingRequest(
    Some(7), 1, Instant(Midnight(10)), Instant(Midnight(12)), None, None, None, None, None)

  /** A table with one car and one contract for it, on days 11 to 20. */
  function Rented(): Store {
    EMPTY.(cars := map[1 := CAR], contracts := map[0 := Contract(7, 1, 11, 20, 50.0, 500.0, false, 3, None)],
           nextContract := 1)
  }

  /** A car under contract can be booked for the same days: `BookingOverContractsExactly`. */
  lemma BookedOverAContract()
    ensures Inv(Rented()) && JointlyExclusive(Rented(), 1)
    ensures CreateBooking(Rented(), REQUEST, 3, 0).Ok?
    ensures !JointlyExclusive(CreateBooking(Rented(), REQUEST, 3, 0).value.store, 1)
  {
    var st := Rented();
    ValidDatesExactly(Midnight(10), Midnight(12), 0);
    assert ConflictingBookings(st.bookings, 1, 10, 12, None) == {};
    assert 0 in ContractOccupants(st.contracts, 1, 11);
    BookingOverContractsExactly(st, REQUEST, 3, 0);
  }

  function SampleBooking(status: BookingStatus, extras: Option<seq<Extra>>): Booking {
    Booking(Some(7), 1, 10, 12, None, None, None, extras, None, 100.0, 30.0, false, status, Midnight(9), 3,
            None, None, None, None, None)
  }

  function WithBooking(b: Booking): Store {
    EMPTY.(cars := map[1 := CAR], customers := {7}, bookings := map[0 := b], nextBooking := 1)
  }

  /** A raw status update confirms without a deposit: `ConfirmedUnpaidExactly`. */
  lemma ConfirmedWithoutDeposit()
    ensures var st :=
              After(WithBooking(SampleBooking(Pending, None)), Update(0, NO_CHANGE.(status := Some(Confirmed)), 3), 0);
            st.bookings[0].status == Confirmed && !st.bookings[0].depositPaid
  {
  }

  /** And it converts without a contract: `ConvertedWithoutContractExactly`. */
  lemma ConvertedWithoutContract()
    ensures var st :=
              After(WithBooking(SampleBooking(Confirmed, None)), Update(0, NO_CHANGE.(status := Some(Converted)), 3),
                    0);
            st.bookings[0].status == Converted && st.contracts == map[]
  {
  }

  /** New extras without new dates leave the old price: `ExtrasOnlyUpdateStaysPricedExactly`. */
  lemma ExtrasForFree()
    ensures var b := SampleBooking(Pending, None);
            var patch := NO_CHANGE.(extras := Value([Extra(1.0, 25.0)]));
            && PricedFor(b, 50.0, Midnight(10), Midnight(12))
            && UpdateBooking(WithBooking(b), 0, patch, 3, 0).Ok?
            && !PricedFor(UpdateBooking(WithBooking(b), 0, patch, 3, 0).value.store.bookings[0], 50.0, Midnight(10),
                          Midnight(12))
  {
  }

  /** Both dates as they are, and `null` for the extras. */
  const DROP_EXTRAS := NO_CHANGE.(
    startDate := Some(Instant(Midnight(10))), endDate := Some(Instant(Midnight(12))), extras := Null)

  /** `null` extras sent with the dates leave the row but not the price: `RescheduledBookingIsPricedExactly`. */
  lemma DroppedExtrasAreCharged()
    ensures var b := SampleBooking(Pending, Some([Extra(1.0, 25.0)]));
            var patch := DROP_EXTRAS;
            var after := UpdateBooking(WithBooking(b), 0, patch, 3, 0);
            && after.Ok? && after.value.store.bookings[0].extras == None
            && !PricedFor(after.value.store.bookings[0], 50.0, Midnight(10), Midnight(12))
  {
    var extra := [Extra(1.0, 25.0)];
    var st := WithBooking(SampleBooking(Pending, Some(extra)));
    var patch := DROP_EXTRAS;
    assert ExtrasPerDay(extra) == 25.0 + ExtrasPerDay(extra[1..]);
    ValidDatesExactly(Midnight(10), Midnight(12), 0);
    assert ConflictingBookings(st.bookings, 1, 10, 12, Some(0)) == {};
    RescheduledBookingIsPricedExactly(st, 0, patch, 3, 0);
  }

  const GOOD_REASON := "changed my plans"

  /** An expired booking is cancelled, which the transition table forbids: `TableIsObeyedExactly`. */
  lemma ExpiredBookingIsCancelled()
    ensures var st := After(WithBooking(SampleBooking(Expired, None)), Cancel(0, GOOD_REASON, 3), 0);
            st.bookings[0].status == Cancelled && !Lifecycle.TableAllows(Expired, Cancelled)
  {
  }

  /** Written rows that cannot be read back are reported as failed: `ReportIsTrueExactly`. */
  lemma ExpiredRowsReportedAsFailed()
    ensures var (after, report) :=
              ExpireBookings(WithBooking(SampleBooking(Pending, None)), Midnight(10), RefetchFails);
            after.bookings[0].status == Expired && report.expired == 0 && report.failed == 1
  {
    assert ExpiredBookings(map[0 := SampleBooking(Pending, None)], Midnight(10)) == {0};
  }

  /** Three retries take six seconds and not the seven of doubling: `RetriesBackOffExactly`. */
  lemma ThreeRetriesAreNotDoubled()
    ensures RetrySleep(1000, 0, 3) == 6000 && BackoffSleep(1000, 0, 3) == 7000
  {
  }

  const DELETED_CAR := Car(Deleted, 50.0, true)

  /** The last booking of a deleted car expires: the car is available again (`RevivesExactly`), and can be booked. */
  lemma DeletedCarComesBack()
    ensures var st := WithBooking(SampleBooking(Pending, None)).(cars := map[1 := DELETED_CAR]);
            var expired := SchedulerExpire(st, 0, Midnight(9) + 1);
            && expired.Ok? && expired.value.store.cars[1] == DELETED_CAR.(status := Available)
            && CreateBooking(expired.value.store, REQUEST, 3, Midnight(9) + 1).Ok?
  {
  }

  /** Each attempt stores the booking and then throws. */
  const ALWAYS_AFTER_SAVE := FaultPlan((k: nat) => AfterSave, (k: nat) => false)

  /** A task stores the last booking of a car and then fails: the car stays out (`LastExpiryRestoresExactly`). */
  lemma CarIsLeftOut()
    ensures var bookings, cars := map[0 := SampleBooking(Pending, None)], map[1 := CAR.(status := Archived)];
            var outcome := OutcomeFrom(ALWAYS_AFTER_SAVE, 0, MAX_RETRIES);
            var after := BookingScheduler.BookingsAfterTask(bookings, 0, outcome);
            && after[0].status == Expired && ExpiredBookings(after, Midnight(10)) == {}
            && BookingScheduler.CarsAfterTask(bookings, cars, 0, outcome)[1].status == Archived
  {
    StoredButNotFinished();
  }

  lemma StoredButNotFinished()
    ensures OutcomeFrom(ALWAYS_AFTER_SAVE, 0, MAX_RETRIES) == StoredOnly
  {
    SucceedsExactlyWhen(ALWAYS_AFTER_SAVE, MAX_RETRIES);
    assert ALWAYS_AFTER_SAVE.attempts(0) != BeforeSave;
  }

  /** Of two tasks on a car, 0 fails after its save and 1 succeeds. */
  function OnlyOneFinishes(): ExpiryLoop.Outcomes {
    (page: nat, id: BookingId) => if id == 0 then StoredOnly else Succeeded
  }

  /** Two bookings of the car 1, which is archived. */
  function TwoBookings(): map<BookingId, Booking> {
    map[0 := SampleBooking(Pending, None), 1 := SampleBooking(Pending, None)]
  }

  const ARCHIVED := map[1 := CAR.(status := Archived)]

  lemma FirstOfTwo(id: BookingId, page: nat)
    requires id == 0 || id == 1
    ensures BookingScheduler.StoreBatch(TwoBookings(), [id], page, OnlyOneFinishes()) == StoreExpired(TwoBookings(), id)
    ensures BookingScheduler.CarsAfterBatch(TwoBookings(), ARCHIVED, [id], page, OnlyOneFinishes()) == ARCHIVED
  {
    var outcome := OnlyOneFinishes();
    assert [id][..0] == [];
    assert BookingScheduler.StoreBatch(TwoBookings(), [], page, outcome) == TwoBookings();
    assert 0 in HoldingBookings(TwoBookings(), 1, 1);
  }

  lemma SecondOfTwo(bookings: map<BookingId, Booking>, cars: map<CarId, Car>, x: BookingId, y: BookingId, page: nat,
                    outcome: ExpiryLoop.Outcomes)
    requires x in bookings && y in bookings
    ensures BookingScheduler.CarsAfterBatch(bookings, cars, [x, y], page, outcome)
         == BookingScheduler.CarsAfterTask(BookingScheduler.StoreBatch(bookings, [x], page, outcome),
              BookingScheduler.CarsAfterBatch(bookings, cars, [x], page, outcome), y, outcome(page, y))
  {
    BookingScheduler.CarsAfterOneMore(bookings, cars, [x, y], 1, page, outcome);
    assert [x, y][..1] == [x] && [x, y][..2] == [x, y];
  }

  lemma OneComesLast(page: nat)
    ensures BookingScheduler.CarsAfterBatch(TwoBookings(), ARCHIVED, [0, 1], page, OnlyOneFinishes()) == map[1 := CAR]
  {
    SecondOfTwo(TwoBookings(), ARCHIVED, 0, 1, page, OnlyOneFinishes());
    FirstOfTwo(0, page);
    assert HoldingBookings(StoreExpired(TwoBookings(), 0), 1, 1) == {};
  }

  /** Then the car comes back if 1 counts last, and stays out if it counts first: `AnyInterleavingLeavesTheCar`. */
  lemma OrderDecidesAboutTheCar(page: nat)
    ensures BookingScheduler.CarsAfterBatch(TwoBookings(), ARCHIVED, [0, 1], page, OnlyOneFinishes()) == map[1 := CAR]
    ensures BookingScheduler.CarsAfterBatch(TwoBookings(), ARCHIVED, [1, 0], page, OnlyOneFinishes()) == ARCHIVED
  {
    OneComesLast(page);
    SecondOfTwo(TwoBookings(), ARCHIVED, 1, 0, page, OnlyOneFinishes());
    FirstOfTwo(1, page);
  }

  /** One expired booking is never expired by the scheduler: `FailureFreeRun`. */
  lemma LonelyBookingStays(outcome: ExpiryLoop.Outcomes, rounds: nat)
    ensures ExpiryLoop.LoopRun(ExpiryLoop.Init([5]), 100, 100, outcome, rounds).pending == [5]
  {
  }

  /** A comma in a user name, as in "Doe, Jane", spoils the export of any log: `RoundTripExactlyWhen`. */
  lemma CommaInTheNameSpoilsTheExport(log: Csv.AuditLog)
    requires ',' in log.username.GetOr("")
    ensures Csv.ReadFile(Csv.ConvertToCSV([log])) != Some(Csv.TableValues(Csv.HEADERS, [log]))
  {
    assert log in [log] && !Csv.PlainLog(log);
    Csv.RoundTripExactlyWhen([log]);
  }

  lemma LowerApiKey()
    ensures Redaction.Lower("apiKey") == "apikey"
  {
    assert "apiKey"[1..] == "piKey" && "piKey"[1..] == "iKey" && "iKey"[1..] == "Key" && "Key"[1..] == "ey";
    assert "ey"[1..] == "y" && "y"[1..] == "";
  }

  /** A listed name in camel case does not even protect the key of that name: `SensitiveExactlyWhen`. */
  lemma ApiKeyIsNotRedacted()
    ensures !Redaction.Sensitive("apiKey")
  {
    LowerApiKey();
    var lower := "apikey";
    Redaction.WithoutTheLetter(lower, "password", 2);
    Redaction.WithoutTheLetter(lower, "salt", 0);
    Redaction.WithoutTheLetter(lower, "token", 0);
    Redaction.WithoutTheLetter(lower, "secret", 0);
    Redaction.WithoutTheLetter(lower, "cvv", 0);
    Redaction.WithoutTheLetter(lower, "ssn", 0);
    Redaction.WithoutTheLetter(lower, "pin", 2);
    Redaction.SensitiveExactlyWhen("apiKey");
  }

  /** Costs of 1 and 199 are shown as 1 and 100 percent: `PercentagesAddUp`. */
  lemma PercentagesOver100()
    ensures CostAnalytics.PercentagesTotal(CostAnalytics.Categories(CostAnalytics.TotalsOf(1.0, 199.0))) == 101
  {
  }

  /** A serviced car without documents has alerts of its own, and the fleet finds nothing: `OverlooksExactlyWhen`. */
  lemma UndocumentedCarIsFine(now: Millis)
    ensures var file := MaintenanceAlerts.CarFile(Some(1000), [Some(900)], [], [], 0);
            && MaintenanceAlerts.Raised(file, now, MaintenanceAlerts.NoDocument(MaintenanceAlerts.Registration))
            && !FleetMaintenance.In(file, now, FleetMaintenance.FoundCar)
  {
  }

  /** One car with both documents expired counts as two cars with expired documents: `Accounting`. */
  lemma OneCarTwoExpiredDocuments(s: FleetMaintenance.Summary, now: Millis)
    requires var file := MaintenanceAlerts.CarFile(None, [None], [now - 1], [now - 1], 0);
             s.totalCars == 1 && FleetMaintenance.Counted(s, [file], now)
    ensures s.carsWithExpiredDocs == 2 > s.totalCars
  {
    var file := MaintenanceAlerts.CarFile(None, [None], [now - 1], [now - 1], 0);
    var registration := FleetMaintenance.OutOfDate(MaintenanceAlerts.Registration);
    var insurance := FleetMaintenance.OutOfDate(MaintenanceAlerts.Insurance);
    FleetMaintenance.CountAppend([], file, now, FleetMaintenance.With(registration));
    FleetMaintenance.CountAppend([], file, now, FleetMaintenance.With(insurance));
    assert [] + [file] == [file];
  }
}
