/**
 The expiry scheduler as an object over the booking and car tables: the task with its nested retry,
 and the batching loop. It counts what it does: attempts, saves, notification sends and milliseconds
 slept.
 */
module BookingScheduler {
  import opened Lists
  import opened Wrappers
  import opened Rental
  import opened Reservations
  import opened Calendar
  import opened ExpiryTask
  import opened ExpiryLoop
  import opened ExpiryBatch
  import opened ExpiryQuery

  // ---------- What the job may do to the tables ----------

  function TaskOutcomes(plans: (nat, BookingId) -> FaultPlan, max: nat): Outcomes {
    (page: nat, id: BookingId) => OutcomeFrom(plans(page, id), 0, max)
  }

  /** Every task has an attempt that throws nothing. */
  ghost predicate AllGoThrough(plans: (nat, BookingId) -> FaultPlan, max: nat) {
    forall page, id :: exists k | 0 <= k <= max :: plans(page, id).attempts(k) == Nowhere
  }

  lemma AllSucceed(plans: (nat, BookingId) -> FaultPlan, max: nat)
    requires AllGoThrough(plans, max)
    ensures forall page, id :: TaskOutcomes(plans, max)(page, id) == Succeeded
  {
    forall page: nat, id: BookingId
      ensures TaskOutcomes(plans, max)(page, id) == Succeeded
    {
      SucceedsExactlyWhen(plans(page, id), max);
    }
  }

  /** Then every full batch of the loop stores its bookings, so the loop ends. */
  lemma GoingThroughStores(pending: seq<BookingId>, offset: nat, size: nat, plans: (nat, BookingId) -> FaultPlan,
                           max: nat)
    requires AllGoThrough(plans, max) && size > 0
    ensures FullBatchesStore(pending, offset, size, TaskOutcomes(plans, max))
  {
    AllSucceed(plans, max);
    forall rounds: nat
      ensures !FullBatchStuck(LoopRun(Init(pending), offset, size, TaskOutcomes(plans, max), rounds), offset, size,
                              TaskOutcomes(plans, max))
    {
      var ls := LoopRun(Init(pending), offset, size, TaskOutcomes(plans, max), rounds);
      var batch := Window(ls.pending, offset, size);
      if |batch| == size {
        assert batch[0] in batch && TaskOutcomes(plans, max)(ls.page, batch[0]) == Succeeded;
      }
    }
  }

  /** The booking table after a batch: the bookings whose tasks stored them have lapsed. */
  function StoreBatch(bookings: map<BookingId, Booking>, batch: seq<BookingId>, page: nat, outcome: Outcomes)
    : map<BookingId, Booking>
  {
    map id | id in bookings ::
      if id in batch && outcome(page, id) != Unsaved then Lapsed(bookings[id]) else bookings[id]
  }

  /** Between two moments bookings may have lapsed, and nothing else happened to them. */
  ghost predicate ExpiredFrom(before: map<BookingId, Booking>, after: map<BookingId, Booking>) {
    && before.Keys == after.Keys
    && forall id | id in before ::
         after[id] == before[id] || (Active(before[id].status) && after[id] == Lapsed(before[id]))
  }

  /** A car row is as it was at first, or was set available and nothing holds the car. */
  ghost predicate GivenBackOnly(first: map<CarId, Car>, cars: map<CarId, Car>, bookings: map<BookingId, Booking>,
                                carId: CarId)
  {
    && (carId in first <==> carId in cars)
    && (carId in cars ==>
          cars[carId] == first[carId] || (Reopened(first[carId], cars[carId]) && !Held(bookings, carId)))
  }

  ghost predicate AllGivenBackOnly(first: map<CarId, Car>, cars: map<CarId, Car>, bookings: map<BookingId, Booking>) {
    forall carId :: GivenBackOnly(first, cars, bookings, carId)
  }

  /** In the rounds up to `page`, no task of a booking of the car fails for good after it has stored its booking. */
  ghost predicate NoneStoredOnly(outcome: Outcomes, page: nat, bookings: map<BookingId, Booking>, carId: CarId) {
    forall p: nat, id | p <= page && id in bookings && bookings[id].carId == carId :: outcome(p, id) != StoredOnly
  }

  /** If one of the car's bookings has lapsed since `first` and nothing holds the car any more, it is available. */
  ghost predicate Restored(first: map<BookingId, Booking>, bookings: map<BookingId, Booking>, cars: map<CarId, Car>,
                           carId: CarId)
  {
    carId in cars && !Held(bookings, carId)
    && (exists id | id in bookings && id in first :: bookings[id].carId == carId && bookings[id] != first[id]) ==>
      cars[carId].status == Available
  }

  /** No car was given back wrongly, and none was forgotten of whose own tasks none failed half way. */
  ghost predicate CarsRight(outcome: Outcomes, page: nat,
                            firstBookings: map<BookingId, Booking>, bookings: map<BookingId, Booking>,
                            firstCars: map<CarId, Car>, cars: map<CarId, Car>)
  {
    && AllGivenBackOnly(firstCars, cars, bookings)
    && forall carId :: NoneStoredOnly(outcome, page, bookings, carId) ==> Restored(firstBookings, bookings, cars, carId)
  }

  // ---------- One task ----------

  lemma TaskStores(plan: FaultPlan, max: nat)
    ensures var k := FirstSuccess(Attempt(plan), 0, max);
            && (SavesBetween(plan, 0, k) > 0 <==> OutcomeFrom(plan, 0, max) != Unsaved)
            && (plan.attempts(k) == Nowhere <==> OutcomeFrom(plan, 0, max) == Succeeded)
  {
    SaveMeansStored(plan, 0, FirstSuccess(Attempt(plan), 0, max));
  }

  /** The tables after a task that ended so. */
  function BookingsAfterTask(bookings: map<BookingId, Booking>, id: BookingId, outcome: TaskOutcome)
    : map<BookingId, Booking>
    requires id in bookings
  {
    if outcome != Unsaved then StoreExpired(bookings, id) else bookings
  }

  function CarsAfterTask(bookings: map<BookingId, Booking>, cars: map<CarId, Car>, id: BookingId, outcome: TaskOutcome)
    : map<CarId, Car>
    requires id in bookings
  {
    if outcome == Succeeded then CarsAfter(bookings, cars, id) else cars
  }

  lemma TaskGivesBackOnly(first: map<CarId, Car>, cars: map<CarId, Car>, bookings: map<BookingId, Booking>,
                          outcome: TaskOutcome, id: BookingId, carId: CarId)
    requires id in bookings && GivenBackOnly(first, cars, bookings, carId)
    ensures GivenBackOnly(first, CarsAfterTask(bookings, cars, id, outcome), BookingsAfterTask(bookings, id, outcome),
                          carId)
  {
    var after := StoreExpired(bookings, id);
    ExpiringReleasesOnly(bookings, id, carId);
    HoldersIgnoreTheBooking(bookings, id);
    CountMeansHeld(after, id);
  }

  lemma TaskRestores(first: map<BookingId, Booking>, cars: map<CarId, Car>, bookings: map<BookingId, Booking>,
                     outcome: TaskOutcome, id: BookingId, carId: CarId)
    requires id in bookings && Restored(first, bookings, cars, carId)
    requires bookings[id].carId == carId ==> outcome != StoredOnly
    ensures Restored(first, BookingsAfterTask(bookings, id, outcome), CarsAfterTask(bookings, cars, id, outcome), carId)
  {
    if outcome != Unsaved {
      var after := StoreExpired(bookings, id);
      HoldersIgnoreTheBooking(bookings, id);
      CountMeansHeld(after, id);
      if bookings[id].carId != carId {
        ExpiringElsewhere(bookings, id, carId);
        if other :| other in after && other in first && after[other].carId == carId && after[other] != first[other] {
          assert bookings[other] == after[other];
        }
      }
    }
  }

  lemma TaskKeepsCarsRight(outcome: Outcomes, firstBookings: map<BookingId, Booking>, bookings: map<BookingId, Booking>,
                           firstCars: map<CarId, Car>, cars: map<CarId, Car>, page: nat, id: BookingId)
    requires id in bookings && CarsRight(outcome, page, firstBookings, bookings, firstCars, cars)
    ensures CarsRight(outcome, page, firstBookings, BookingsAfterTask(bookings, id, outcome(page, id)), firstCars,
                      CarsAfterTask(bookings, cars, id, outcome(page, id)))
  {
    var bookings' := BookingsAfterTask(bookings, id, outcome(page, id));
    var cars' := CarsAfterTask(bookings, cars, id, outcome(page, id));
    forall carId
      ensures GivenBackOnly(firstCars, cars', bookings', carId)
    {
      TaskGivesBackOnly(firstCars, cars, bookings, outcome(page, id), id, carId);
    }
    forall carId | NoneStoredOnly(outcome, page, bookings', carId)
      ensures Restored(firstBookings, bookings', cars', carId)
    {
      TaskNeedsItsCarOnly(outcome, page, bookings, id, carId);
      TaskRestores(firstBookings, cars, bookings, outcome(page, id), id, carId);
    }
  }

  lemma TaskNeedsItsCarOnly(outcome: Outcomes, page: nat, bookings: map<BookingId, Booking>, id: BookingId,
                            carId: CarId)
    requires id in bookings
    requires NoneStoredOnly(outcome, page, BookingsAfterTask(bookings, id, outcome(page, id)), carId)
    ensures NoneStoredOnly(outcome, page, bookings, carId)
    ensures bookings[id].carId == carId ==> outcome(page, id) != StoredOnly
  {
  }

  /**
   When the last booking that holds a car gets stored as expired, the car ends up available exactly when
   it was before or some attempt throws nothing: a task whose attempts all throw is not tried again, and
   leaves the car as it was.
   */
  lemma LastExpiryRestoresExactly(bookings: map<BookingId, Booking>, cars: map<CarId, Car>, id: BookingId,
                                  plan: FaultPlan, max: nat)
    requires id in bookings && bookings[id].carId in cars
    requires exists k | 0 <= k <= max :: plan.attempts(k) != BeforeSave
    requires HoldingBookings(bookings, bookings[id].carId, id) == {}
    ensures CarsAfterTask(bookings, cars, id, OutcomeFrom(plan, 0, max))[bookings[id].carId].status == Available <==>
            cars[bookings[id].carId].status == Available || exists k | 0 <= k <= max :: plan.attempts(k) == Nowhere
  {
    SucceedsExactlyWhen(plan, max);
  }

  /** A successful task does to the tables what the scheduled expiry among the service calls does. */
  lemma TaskIsAScheduledExpiry(st: Store, id: BookingId, now: Millis)
    requires id in ExpiredBookings(st.bookings, now)
    ensures SchedulerExpire(st, id, now)
         == Ok(Accepted(st.(bookings := BookingsAfterTask(st.bookings, id, Succeeded),
                            cars := CarsAfterTask(st.bookings, st.cars, id, Succeeded)), id))
  {
    HoldersIgnoreTheBooking(st.bookings, id);
  }

  /** A scheduled expiry changes a car exactly when nothing else holds it and it is not available. */
  lemma RevivesExactly(st: Store, id: BookingId, now: Millis)
    requires SchedulerExpire(st, id, now).Ok?
    ensures var carId, cars := st.bookings[id].carId, SchedulerExpire(st, id, now).value.store.cars;
            && (cars != st.cars <==>
                carId in st.cars && st.cars[carId].status != Available && HoldingBookings(st.bookings, carId, id) == {})
            && (cars != st.cars ==> cars == st.cars[carId := st.cars[carId].(status := Available)])
  {
  }

  // ---------- The job as a run of the service calls ----------

  /** A store with other bookings and cars. */
  function WithTables(st: Store, bookings: map<BookingId, Booking>, cars: map<CarId, Car>): Store {
    st.(bookings := bookings, cars := cars)
  }

  /** The calls that do what a task does; one that stores its booking and then fails leaves the car as it was. */
  function TaskCalls(st: Store, id: BookingId, outcome: TaskOutcome, now: Millis): seq<Event>
    requires id in st.bookings
  {
    var carId := st.bookings[id].carId;
    match outcome
    case Succeeded => [Event(ExpireScheduled(id), now)]
    case StoredOnly =>
      [Event(ExpireScheduled(id), now)]
      + if carId in st.cars then [Event(WriteCar(carId, Some(st.cars[carId])), now)] else []
    case Unsaved => []
  }

  lemma RunOne(st: Store, e: Event)
    ensures Run(st, [e]) == After(st, e.call, e.now)
  {
    assert Run(st, []) == st;
  }

  lemma {:induction false} RunConcat(st: Store, a: seq<Event>, b: seq<Event>)
    ensures Run(st, a + b) == Run(Run(st, a), b)
  {
    if b == [] {
      assert a + b == a;
    } else {
      var front := b[..|b| - 1];
      RunConcat(st, a, front);
      assert (a + b)[..|a + b| - 1] == a + front;
    }
  }

  /** The car of an expired booking, written back as it was. */
  lemma WrittenBack(st: Store, id: BookingId, now: Millis)
    requires id in st.bookings && id in ExpiredBookings(st.bookings, now)
    ensures var carId, expired := st.bookings[id].carId, After(st, ExpireScheduled(id), now);
            && (carId !in st.cars ==> expired == st.(bookings := StoreExpired(st.bookings, id)))
            && (carId in st.cars ==>
                  After(expired, WriteCar(carId, Some(st.cars[carId])), now)
                  == st.(bookings := StoreExpired(st.bookings, id)))
  {
    var carId, cars := st.bookings[id].carId, CarsAfter(st.bookings, st.cars, id);
    TaskIsAScheduledExpiry(st, id, now);
    assert carId in st.cars ==> cars[carId := st.cars[carId]] == st.cars;
  }

  /** However a task ends, it does to the tables what some service calls do. */
  lemma TaskIsARun(st: Store, id: BookingId, outcome: TaskOutcome, now: Millis)
    requires id in st.bookings && id in ExpiredBookings(st.bookings, now)
    ensures Run(st, TaskCalls(st, id, outcome, now))
         == WithTables(st, BookingsAfterTask(st.bookings, id, outcome),
                       CarsAfterTask(st.bookings, st.cars, id, outcome))
  {
    var expire := Event(ExpireScheduled(id), now);
    RunOne(st, expire);
    match outcome
    case Succeeded =>
      TaskIsAScheduledExpiry(st, id, now);
    case StoredOnly =>
      var carId := st.bookings[id].carId;
      WrittenBack(st, id, now);
      if carId in st.cars {
        var restore := Event(WriteCar(carId, Some(st.cars[carId])), now);
        RunConcat(st, [expire], [restore]);
        RunOne(After(st, expire.call, now), restore);
      } else {
        assert [expire] + [] == [expire];
      }
    case Unsaved =>
  }

  /** Some run of service calls leads from one store to the other. */
  ghost predicate Reachable(st: Store, st': Store) {
    exists events :: Run(st, events) == st'
  }

  lemma ReachableTwice(st: Store, st': Store, st'': Store)
    requires Reachable(st, st') && Reachable(st', st'')
    ensures Reachable(st, st'')
  {
    var a :| Run(st, a) == st';
    var b :| Run(st', b) == st'';
    RunConcat(st, a, b);
  }

  /** Whatever else is stored, service calls could have brought the two tables there. */
  ghost predicate ByCalls(firstBookings: map<BookingId, Booking>, bookings: map<BookingId, Booking>,
                          firstCars: map<CarId, Car>, cars: map<CarId, Car>)
  {
    forall st: Store ::
      Reachable(WithTables(st, firstBookings, firstCars), WithTables(st, bookings, cars))
  }

  /** So the job carries on a run as a run: whatever holds after any run holds before, during and after the job. */
  lemma JobContinuesTheRun(first: Store, events: seq<Event>, bookings: map<BookingId, Booking>, cars: map<CarId, Car>)
    requires ByCalls(Run(first, events).bookings, bookings, Run(first, events).cars, cars)
    ensures exists more :: Run(first, events + more) == WithTables(Run(first, events), bookings, cars)
  {
    var st := Run(first, events);
    assert WithTables(st, st.bookings, st.cars) == st;
    assert Reachable(WithTables(st, st.bookings, st.cars), WithTables(st, bookings, cars));
    var more :| Run(st, more) == WithTables(st, bookings, cars);
    RunConcat(first, events, more);
  }

  /** Whatever the job has done by some moment, the tables keep the invariant of the calendars. */
  lemma JobKeepsInv(st: Store, bookings: map<BookingId, Booking>, cars: map<CarId, Car>)
    requires Inv(st) && ExpiredFrom(st.bookings, bookings)
    ensures Inv(st.(bookings := bookings, cars := cars))
  {
  }

  // ---------- A batch ----------

  lemma StoreOneMore(bookings: map<BookingId, Booking>, done: seq<BookingId>, id: BookingId, page: nat,
                     outcome: Outcomes)
    requires id in bookings
    ensures var stored := StoreBatch(bookings, done, page, outcome);
            StoreBatch(bookings, done + [id], page, outcome)
            == if outcome(page, id) != Unsaved then StoreExpired(stored, id) else stored
  {
  }

  /** The car table after the tasks of a batch, one after another. */
  function CarsAfterBatch(bookings: map<BookingId, Booking>, cars: map<CarId, Car>, batch: seq<BookingId>, page: nat,
                          outcome: Outcomes): map<CarId, Car>
    requires forall id | id in batch :: id in bookings
  {
    if batch == [] then cars
    else
      var front, last := batch[..|batch| - 1], batch[|batch| - 1];
      CarsAfterTask(StoreBatch(bookings, front, page, outcome), CarsAfterBatch(bookings, cars, front, page, outcome),
                    last, outcome(page, last))
  }

  lemma EmptyBatchStoresNothing(bookings: map<BookingId, Booking>, page: nat, outcome: Outcomes)
    ensures StoreBatch(bookings, [], page, outcome) == bookings
  {
  }

  lemma CarsAfterOneMore(bookings: map<BookingId, Booking>, cars: map<CarId, Car>, batch: seq<BookingId>, i: nat,
                         page: nat, outcome: Outcomes)
    requires i < |batch| && forall id | id in batch :: id in bookings
    ensures CarsAfterBatch(bookings, cars, batch[..i + 1], page, outcome)
         == CarsAfterTask(StoreBatch(bookings, batch[..i], page, outcome),
                          CarsAfterBatch(bookings, cars, batch[..i], page, outcome), batch[i], outcome(page, batch[i]))
  {
    assert batch[..i + 1][..i] == batch[..i];
  }

  ghost predicate AllExpirable(batch: seq<BookingId>, bookings: map<BookingId, Booking>, now: Millis) {
    Distinct(batch) && forall id | id in batch :: id in bookings && id in ExpiredBookings(bookings, now)
  }

  /** The store after the tasks of a batch, one after another. */
  function StoreAfterBatch(st: Store, batch: seq<BookingId>, page: nat, outcome: Outcomes): Store
    requires forall id | id in batch :: id in st.bookings
  {
    WithTables(st, StoreBatch(st.bookings, batch, page, outcome),
               CarsAfterBatch(st.bookings, st.cars, batch, page, outcome))
  }

  lemma FrontOfBatch(batch: seq<BookingId>, bookings: map<BookingId, Booking>, now: Millis, page: nat,
                     outcome: Outcomes)
    requires batch != [] && AllExpirable(batch, bookings, now)
    ensures var front, last := batch[..|batch| - 1], batch[|batch| - 1];
            var before := StoreBatch(bookings, front, page, outcome);
            && AllExpirable(front, bookings, now) && last in before && last in ExpiredBookings(before, now)
            && StoreBatch(bookings, batch, page, outcome) == BookingsAfterTask(before, last, outcome(page, last))
  {
  }

  /** And so does a whole batch. */
  lemma {:induction false} BatchIsARun(st: Store, batch: seq<BookingId>, page: nat, outcome: Outcomes, now: Millis)
    requires AllExpirable(batch, st.bookings, now)
    ensures Reachable(st, StoreAfterBatch(st, batch, page, outcome))
  {
    if batch == [] {
      EmptyBatchStoresNothing(st.bookings, page, outcome);
      assert Run(st, []) == st;
    } else {
      var front, last := batch[..|batch| - 1], batch[|batch| - 1];
      FrontOfBatch(batch, st.bookings, now, page, outcome);
      BatchIsARun(st, front, page, outcome, now);
      var between := StoreAfterBatch(st, front, page, outcome);
      TaskIsARun(between, last, outcome(page, last), now);
      assert Reachable(between, StoreAfterBatch(st, batch, page, outcome));
      ReachableTwice(st, between, StoreAfterBatch(st, batch, page, outcome));
    }
  }

  /** A batch carried on from where service calls have led. */
  lemma BatchByCalls(firstBookings: map<BookingId, Booking>, bookings: map<BookingId, Booking>,
                     firstCars: map<CarId, Car>, cars: map<CarId, Car>, batch: seq<BookingId>, page: nat,
                     outcome: Outcomes, now: Millis)
    requires ByCalls(firstBookings, bookings, firstCars, cars) && AllExpirable(batch, bookings, now)
    ensures ByCalls(firstBookings, StoreBatch(bookings, batch, page, outcome), firstCars,
                    CarsAfterBatch(bookings, cars, batch, page, outcome))
  {
    forall st: Store
      ensures Reachable(WithTables(st, firstBookings, firstCars),
                        WithTables(st, StoreBatch(bookings, batch, page, outcome),
                                   CarsAfterBatch(bookings, cars, batch, page, outcome)))
    {
      var between := WithTables(st, bookings, cars);
      BatchIsARun(between, batch, page, outcome, now);
      ReachableTwice(WithTables(st, firstBookings, firstCars), between, StoreAfterBatch(between, batch, page, outcome));
    }
  }

  lemma EndingOne(id: BookingId, outcome: Outcomes, page: nat)
    ensures Ending([id], outcome, page, {Succeeded}) == if outcome(page, id) == Succeeded then [id] else []
    ensures Ending([id], outcome, page, {StoredOnly, Unsaved}) == if outcome(page, id) == Succeeded then [] else [id]
  {
  }

  /** What one more task of a batch adds to the table and to the two result lists. */
  lemma OneMoreTask(bookings: map<BookingId, Booking>, batch: seq<BookingId>, i: nat, page: nat, outcome: Outcomes)
    requires i < |batch| && batch[i] in bookings
    ensures var id := batch[i];
            var before := StoreBatch(bookings, batch[..i], page, outcome);
            && StoreBatch(bookings, batch[..i + 1], page, outcome) == BookingsAfterTask(before, id, outcome(page, id))
            && Ending(batch[..i + 1], outcome, page, {Succeeded})
               == Ending(batch[..i], outcome, page, {Succeeded})
                  + (if outcome(page, id) == Succeeded then [id] else [])
            && Ending(batch[..i + 1], outcome, page, {StoredOnly, Unsaved})
               == Ending(batch[..i], outcome, page, {StoredOnly, Unsaved})
                  + (if outcome(page, id) == Succeeded then [] else [id])
  {
    var id := batch[i];
    assert batch[..i + 1] == batch[..i] + [id];
    StoreOneMore(bookings, batch[..i], id, page, outcome);
    EndingConcat(batch[..i], [id], outcome, page, {Succeeded});
    EndingConcat(batch[..i], [id], outcome, page, {StoredOnly, Unsaved});
    EndingOne(id, outcome, page);
  }

  lemma StoredBatchIsExpired(first: map<BookingId, Booking>, bookings: map<BookingId, Booking>, batch: seq<BookingId>,
                             page: nat, outcome: Outcomes, now: Millis)
    requires ExpiredFrom(first, bookings) && forall id | id in batch :: id in ExpiredBookings(bookings, now)
    ensures ExpiredFrom(first, StoreBatch(bookings, batch, page, outcome))
  {
  }

  /** Expiring rewrites no deadline, so a listing of the first table by deadline lists the later ones too. */
  lemma OrderLasts(order: seq<BookingId>, first: map<BookingId, Booking>, bookings: map<BookingId, Booking>)
    requires IsDeadlineOrder(order, first) && ExpiredFrom(first, bookings)
    ensures IsDeadlineOrder(order, bookings)
  {
  }

  // ---------- A batch in any interleaving ----------

  /** The steps of a whole batch, in some order, with every task following its plan to its end. */
  ghost predicate BatchRuns(bookings: map<BookingId, Booking>, cars: map<CarId, Car>, batch: seq<BookingId>,
                            ticks: seq<Tick>, max: nat, page: nat, plans: (nat, BookingId) -> FaultPlan)
  {
    && (forall id | id in batch :: id in bookings && Active(bookings[id].status))
    && (forall id | id in batch :: Follows(Start(bookings, cars, Ids(batch)), ticks, max, id, plans(page, id)))
    && (forall id | id in batch :: RunTicks(Start(bookings, cars, Ids(batch)), ticks, max).tasks[id].pc.Done?)
  }

  lemma InterleavedRow(bookings: map<BookingId, Booking>, cars: map<CarId, Car>, batch: seq<BookingId>,
                       ticks: seq<Tick>, max: nat, page: nat, plans: (nat, BookingId) -> FaultPlan, id: BookingId)
    requires BatchRuns(bookings, cars, batch, ticks, max, page, plans)
    ensures var w := RunTicks(Start(bookings, cars, Ids(batch)), ticks, max);
            && (id in bookings <==> id in w.bookings)
            && (id in bookings ==> w.bookings[id] == StoreBatch(bookings, batch, page, TaskOutcomes(plans, max))[id])
            && (id in batch ==> (w.tasks[id].pc == Done(true) <==> TaskOutcomes(plans, max)(page, id) == Succeeded))
  {
    if id in batch {
      TasksEndAsIfAlone(bookings, cars, Ids(batch), ticks, max, id, plans(page, id));
    } else {
      OtherBookingsAreUntouched(bookings, cars, Ids(batch), ticks, max, id);
    }
  }

  /** Whatever the order of its steps, a batch stores and reports what its tasks do one after another. */
  lemma AnyInterleavingIsTheBatch(bookings: map<BookingId, Booking>, cars: map<CarId, Car>, batch: seq<BookingId>,
                                  ticks: seq<Tick>, max: nat, page: nat, plans: (nat, BookingId) -> FaultPlan)
    requires BatchRuns(bookings, cars, batch, ticks, max, page, plans)
    ensures var w, outcome := RunTicks(Start(bookings, cars, Ids(batch)), ticks, max), TaskOutcomes(plans, max);
            && w.bookings == StoreBatch(bookings, batch, page, outcome)
            && forall id | id in batch :: w.tasks[id].pc == Done(true) <==> outcome(page, id) == Succeeded
  {
    var w := RunTicks(Start(bookings, cars, Ids(batch)), ticks, max);
    var after := StoreBatch(bookings, batch, page, TaskOutcomes(plans, max));
    forall id
      ensures id in w.bookings <==> id in after
      ensures id in after ==> w.bookings[id] == after[id]
      ensures id in batch ==> (w.tasks[id].pc == Done(true) <==> TaskOutcomes(plans, max)(page, id) == Succeeded)
    {
      InterleavedRow(bookings, cars, batch, ticks, max, page, plans, id);
    }
  }

  /** If no task on a car fails after its save, and nothing holds the car any more, they have all succeeded. */
  lemma AllSucceeded(bookings: map<BookingId, Booking>, cars: map<CarId, Car>, batch: seq<BookingId>,
                     ticks: seq<Tick>, max: nat, page: nat, plans: (nat, BookingId) -> FaultPlan,
                     carId: CarId, t: BookingId)
    requires BatchRuns(bookings, cars, batch, ticks, max, page, plans)
    requires forall t | t in batch && bookings[t].carId == carId :: OutcomeFrom(plans(page, t), 0, max) != StoredOnly
    requires !Held(RunTicks(Start(bookings, cars, Ids(batch)), ticks, max).bookings, carId)
    requires t in batch && bookings[t].carId == carId
    ensures RunTicks(Start(bookings, cars, Ids(batch)), ticks, max).tasks[t].pc == Done(true)
  {
    var w := RunTicks(Start(bookings, cars, Ids(batch)), ticks, max);
    TasksEndAsIfAlone(bookings, cars, Ids(batch), ticks, max, t, plans(page, t));
    assert t in w.bookings && (w.bookings[t] == bookings[t] ==> Held(w.bookings, carId));
  }

  /** So no car is forgotten: one with a booking that lapsed, and which nothing holds any more, is available. */
  lemma AnyInterleavingRestores(bookings: map<BookingId, Booking>, cars: map<CarId, Car>, batch: seq<BookingId>,
                                ticks: seq<Tick>, max: nat, page: nat, plans: (nat, BookingId) -> FaultPlan,
                                carId: CarId)
    requires BatchRuns(bookings, cars, batch, ticks, max, page, plans)
    requires forall t | t in batch && bookings[t].carId == carId :: OutcomeFrom(plans(page, t), 0, max) != StoredOnly
    requires carId in cars && exists t | t in batch :: bookings[t].carId == carId
    ensures var w := RunTicks(Start(bookings, cars, Ids(batch)), ticks, max);
            carId in w.cars && (Held(w.bookings, carId) || w.cars[carId].status == Available)
  {
    var ids := Ids(batch);
    var w := RunTicks(Start(bookings, cars, ids), ticks, max);
    CarsAreNotGivenBackEarly(bookings, cars, ids, ticks, max, carId);
    if !Held(w.bookings, carId) {
      forall t | t in ids && bookings[t].carId == carId
        ensures w.tasks[t].pc == Done(true)
      {
        AllSucceeded(bookings, cars, batch, ticks, max, page, plans, carId, t);
      }
      var t :| t in batch && bookings[t].carId == carId;
      assert t in ids;
      CarsAreGivenBack(bookings, cars, ids, ticks, max, carId);
    }
  }

  ghost predicate NoneOn(bookings: map<BookingId, Booking>, batch: seq<BookingId>, carId: CarId)
    requires forall id | id in batch :: id in bookings
  {
    forall t | t in batch :: bookings[t].carId != carId
  }

  ghost predicate NoneStoredOnlyIn(bookings: map<BookingId, Booking>, batch: seq<BookingId>, page: nat,
                                   outcome: Outcomes, carId: CarId)
    requires forall id | id in batch :: id in bookings
  {
    forall t | t in batch && bookings[t].carId == carId :: outcome(page, t) != StoredOnly
  }

  /** What the tasks of a batch, one after another, make of a car. */
  ghost predicate CarAsDue(bookings: map<BookingId, Booking>, cars: map<CarId, Car>, batch: seq<BookingId>, page: nat,
                           outcome: Outcomes, carId: CarId, stored: map<BookingId, Booking>, after: map<CarId, Car>)
    requires forall id | id in batch :: id in bookings
  {
    && GivenBackOnly(cars, after, stored, carId)
    && (NoneStoredOnlyIn(bookings, batch, page, outcome, carId) ==> Restored(bookings, stored, after, carId))
    && (NoneOn(bookings, batch, carId) && carId in cars ==> after[carId] == cars[carId])
  }

  lemma TaskKeepsCarAsDue(bookings: map<BookingId, Booking>, cars: map<CarId, Car>, front: seq<BookingId>,
                          page: nat, outcome: Outcomes, carId: CarId, stored: map<BookingId, Booking>,
                          after: map<CarId, Car>, last: BookingId)
    requires last in bookings && forall id | id in front :: id in bookings
    requires last in stored && stored[last].carId == bookings[last].carId
    requires CarAsDue(bookings, cars, front, page, outcome, carId, stored, after)
    ensures CarAsDue(bookings, cars, front + [last], page, outcome, carId,
                     BookingsAfterTask(stored, last, outcome(page, last)),
                     CarsAfterTask(stored, after, last, outcome(page, last)))
  {
    var batch := front + [last];
    assert last in batch && forall id | id in front :: id in batch;
    TaskGivesBackOnly(cars, after, stored, outcome(page, last), last, carId);
    if NoneStoredOnlyIn(bookings, batch, page, outcome, carId) {
      TaskRestores(bookings, after, stored, outcome(page, last), last, carId);
    }
  }

  lemma {:induction false} BatchOnCar(bookings: map<BookingId, Booking>, cars: map<CarId, Car>, batch: seq<BookingId>,
                                      page: nat, outcome: Outcomes, carId: CarId)
    requires forall id | id in batch :: id in bookings
    ensures CarAsDue(bookings, cars, batch, page, outcome, carId, StoreBatch(bookings, batch, page, outcome),
                     CarsAfterBatch(bookings, cars, batch, page, outcome))
    decreases |batch|
  {
    if batch == [] {
      EmptyBatchStoresNothing(bookings, page, outcome);
    } else {
      var front, last := batch[..|batch| - 1], batch[|batch| - 1];
      assert front + [last] == batch;
      BatchOnCar(bookings, cars, front, page, outcome, carId);
      StoreOneMore(bookings, front, last, page, outcome);
      TaskKeepsCarAsDue(bookings, cars, front, page, outcome, carId, StoreBatch(bookings, front, page, outcome),
                        CarsAfterBatch(bookings, cars, front, page, outcome), last);
    }
  }

  /** Given back only when due, and when due: that leaves one row a car can have. */
  lemma OnlyOneRowIsDue(bookings: map<BookingId, Booking>, cars: map<CarId, Car>, stored: map<BookingId, Booking>,
                        after: map<CarId, Car>, row: Car, carId: CarId, t: BookingId)
    requires carId in cars && GivenBackOnly(cars, after, stored, carId) && Restored(bookings, stored, after, carId)
    requires row != cars[carId] ==> !Held(stored, carId) && Reopened(cars[carId], row)
    requires Held(stored, carId) || row.status == Available
    requires t in bookings && t in stored && stored[t].carId == carId
    requires stored[t] == bookings[t] ==> Held(stored, carId)
    ensures carId in after && row == after[carId]
  {
  }

  lemma InterleavedCar(bookings: map<BookingId, Booking>, cars: map<CarId, Car>, batch: seq<BookingId>,
                       ticks: seq<Tick>, max: nat, page: nat, plans: (nat, BookingId) -> FaultPlan,
                       carId: CarId, t: BookingId)
    requires BatchRuns(bookings, cars, batch, ticks, max, page, plans)
    requires forall t | t in batch && bookings[t].carId == carId :: OutcomeFrom(plans(page, t), 0, max) != StoredOnly
    requires carId in cars && t in batch && bookings[t].carId == carId
    ensures var stored := StoreBatch(bookings, batch, page, TaskOutcomes(plans, max));
            var w := RunTicks(Start(bookings, cars, Ids(batch)), ticks, max);
            && carId in w.cars && t in stored && stored[t].carId == carId
            && (w.cars[carId] != cars[carId] ==> !Held(stored, carId) && Reopened(cars[carId], w.cars[carId]))
            && (Held(stored, carId) || w.cars[carId].status == Available)
            && (stored[t] == bookings[t] ==> Held(stored, carId))
  {
    AnyInterleavingIsTheBatch(bookings, cars, batch, ticks, max, page, plans);
    AnyInterleavingRestores(bookings, cars, batch, ticks, max, page, plans, carId);
    CarsAreNotGivenBackEarly(bookings, cars, Ids(batch), ticks, max, carId);
  }

  /**
   Whatever the order of its steps, a batch leaves a car as its tasks do one after another, unless one of
   the car's own tasks fails after its save: then the order matters.
   */
  lemma AnyInterleavingLeavesTheCar(bookings: map<BookingId, Booking>, cars: map<CarId, Car>, batch: seq<BookingId>,
                                    ticks: seq<Tick>, max: nat, page: nat, plans: (nat, BookingId) -> FaultPlan,
                                    carId: CarId)
    requires BatchRuns(bookings, cars, batch, ticks, max, page, plans)
    requires forall t | t in batch && bookings[t].carId == carId :: OutcomeFrom(plans(page, t), 0, max) != StoredOnly
    ensures var w := RunTicks(Start(bookings, cars, Ids(batch)), ticks, max);
            var after := CarsAfterBatch(bookings, cars, batch, page, TaskOutcomes(plans, max));
            && (carId in w.cars <==> carId in after)
            && (carId in after ==> w.cars[carId] == after[carId])
  {
    var outcome := TaskOutcomes(plans, max);
    OtherCarsAreUntouched(bookings, cars, Ids(batch), ticks, max, carId);
    BatchOnCar(bookings, cars, batch, page, outcome, carId);
    if carId in cars && !NoneOn(bookings, batch, carId) {
      var t :| t in batch && bookings[t].carId == carId;
      InterleavedCar(bookings, cars, batch, ticks, max, page, plans, carId, t);
      assert NoneStoredOnlyIn(bookings, batch, page, outcome, carId);
      OnlyOneRowIsDue(bookings, cars, StoreBatch(bookings, batch, page, outcome),
                      CarsAfterBatch(bookings, cars, batch, page, outcome),
                      RunTicks(Start(bookings, cars, Ids(batch)), ticks, max).cars[carId], carId, t);
    }
  }

  // ---------- The next selection ----------

  /** A list without some of its elements. */
  function Without(s: seq<BookingId>, gone: set<BookingId>): seq<BookingId> {
    if s == [] then [] else (if s[0] in gone then [] else [s[0]]) + Without(s[1..], gone)
  }

  function StoredOf(batch: seq<BookingId>, page: nat, outcome: Outcomes): set<BookingId> {
    set id | id in batch && outcome(page, id) != Unsaved
  }

  lemma {:induction false} WithoutConcat(a: seq<BookingId>, b: seq<BookingId>, gone: set<BookingId>)
    ensures Without(a + b, gone) == Without(a, gone) + Without(b, gone)
  {
    if a == [] {
      assert a + b == b;
    } else {
      WithoutConcat(a[1..], b, gone);
      assert (a + b)[0] == a[0] && (a + b)[1..] == a[1..] + b;
      Associate(if a[0] in gone then [] else [a[0]], Without(a[1..], gone), Without(b, gone));
    }
  }

  lemma {:induction false} WithoutNone(s: seq<BookingId>, gone: set<BookingId>)
    requires forall id | id in s :: id !in gone
    ensures Without(s, gone) == s
  {
    if s != [] {
      WithoutNone(s[1..], gone);
    }
  }

  lemma {:induction false} WithoutStored(part: seq<BookingId>, batch: seq<BookingId>, page: nat, outcome: Outcomes)
    requires forall id | id in part :: id in batch
    ensures Without(part, StoredOf(batch, page, outcome)) == Ending(part, outcome, page, {Unsaved})
  {
    if part != [] {
      WithoutStored(part[1..], batch, page, outcome);
    }
  }

  lemma {:induction false} ExpirableAfterBatch(order: seq<BookingId>, bookings: map<BookingId, Booking>, now: Millis,
                                               batch: seq<BookingId>, page: nat, outcome: Outcomes)
    requires forall id | id in batch :: id in bookings
    ensures Expirable(order, StoreBatch(bookings, batch, page, outcome), now)
         == Without(Expirable(order, bookings, now), StoredOf(batch, page, outcome))
  {
    if order != [] {
      var gone := StoredOf(batch, page, outcome);
      var head := if order[0] in ExpiredBookings(bookings, now) then [order[0]] else [];
      ExpirableAfterBatch(order[1..], bookings, now, batch, page, outcome);
      WithoutConcat(head, Expirable(order[1..], bookings, now), gone);
      assert order[0] in ExpiredBookings(StoreBatch(bookings, batch, page, outcome), now)
        <==> order[0] in ExpiredBookings(bookings, now) && order[0] !in gone;
    }
  }

  lemma SelectedAreThere(order: seq<BookingId>, bookings: map<BookingId, Booking>, now: Millis, offset: nat, size: nat)
    requires Distinct(order)
    ensures AllExpirable(Window(Expirable(order, bookings, now), offset, size), bookings, now)
  {
    ExpirableMember(order, bookings, now);
    ExpirableDistinct(order, bookings, now);
    WindowMembers(Expirable(order, bookings, now), offset, size);
    WindowDistinct(Expirable(order, bookings, now), offset, size);
  }

  /** Leaving out what a batch in the middle of a list has stored leaves its unsaved part there. */
  lemma WithoutMiddle(before: seq<BookingId>, batch: seq<BookingId>, behind: seq<BookingId>,
                      page: nat, outcome: Outcomes)
    requires Distinct(before + batch + behind)
    ensures Without(before + batch + behind, StoredOf(batch, page, outcome))
         == before + Ending(batch, outcome, page, {Unsaved}) + behind
  {
    var gone := StoredOf(batch, page, outcome);
    forall id | id in batch
      ensures id !in before && id !in behind
    {
      MiddleIsApart(before, batch, behind, id);
    }
    WithoutConcat(before + batch, behind, gone);
    WithoutConcat(before, batch, gone);
    WithoutNone(before, gone);
    WithoutNone(behind, gone);
    WithoutStored(batch, batch, page, outcome);
  }

  /** Storing a batch makes the next selection what one round of the loop makes of the list. */
  lemma BatchLeavesPending(order: seq<BookingId>, bookings: map<BookingId, Booking>, now: Millis, ls: LoopState,
                           offset: nat, size: nat, outcome: Outcomes)
    requires Distinct(order) && ls.pending == Expirable(order, bookings, now)
    requires Window(ls.pending, offset, size) != []
    ensures Expirable(order, StoreBatch(bookings, Window(ls.pending, offset, size), ls.page, outcome), now)
         == Iterate(ls, offset, size, outcome).pending
  {
    var batch := Window(ls.pending, offset, size);
    SelectedAreThere(order, bookings, now, offset, size);
    ExpirableAfterBatch(order, bookings, now, batch, ls.page, outcome);
    ExpirableDistinct(order, bookings, now);
    WindowParts(ls.pending, offset, size);
    WithoutMiddle(ls.pending[..offset], batch, ls.pending[offset + |batch|..], ls.page, outcome);
  }

  /** What the job may have done to both tables so far: nothing that service calls could not have done. */
  ghost predicate TablesProgressed(outcome: Outcomes, page: nat, firstBookings: map<BookingId, Booking>,
                                   bookings: map<BookingId, Booking>, firstCars: map<CarId, Car>, cars: map<CarId, Car>)
  {
    && ExpiredFrom(firstBookings, bookings)
    && CarsRight(outcome, page, firstBookings, bookings, firstCars, cars)
    && ByCalls(firstBookings, bookings, firstCars, cars)
  }

  lemma NothingDoneYet(outcome: Outcomes, page: nat, bookings: map<BookingId, Booking>, cars: map<CarId, Car>)
    ensures TablesProgressed(outcome, page, bookings, bookings, cars, cars)
  {
    forall st: Store
      ensures Reachable(WithTables(st, bookings, cars), WithTables(st, bookings, cars))
    {
      assert Run(WithTables(st, bookings, cars), []) == WithTables(st, bookings, cars);
    }
  }

  lemma NextPage(outcome: Outcomes, page: nat, firstBookings: map<BookingId, Booking>,
                 bookings: map<BookingId, Booking>, firstCars: map<CarId, Car>, cars: map<CarId, Car>)
    requires TablesProgressed(outcome, page, firstBookings, bookings, firstCars, cars)
    ensures TablesProgressed(outcome, page + 1, firstBookings, bookings, firstCars, cars)
  {
  }

  /** What a batch keeps of that, before its cars are looked at one by one. */
  lemma BatchProgress(outcome: Outcomes, page: nat, firstBookings: map<BookingId, Booking>,
                      bookings: map<BookingId, Booking>, firstCars: map<CarId, Car>, cars: map<CarId, Car>,
                      batch: seq<BookingId>, now: Millis)
    requires TablesProgressed(outcome, page, firstBookings, bookings, firstCars, cars)
    requires AllExpirable(batch, bookings, now)
    ensures ExpiredFrom(firstBookings, StoreBatch(bookings, batch, page, outcome))
    ensures ByCalls(firstBookings, StoreBatch(bookings, batch, page, outcome), firstCars,
                    CarsAfterBatch(bookings, cars, batch, page, outcome))
  {
    StoredBatchIsExpired(firstBookings, bookings, batch, page, outcome, now);
    BatchByCalls(firstBookings, bookings, firstCars, cars, batch, page, outcome, now);
  }

  /** The loop starts accounted for. */
  lemma StartsAccounted(order: seq<BookingId>, bookings: map<BookingId, Booking>, now: Millis)
    requires Distinct(order)
    ensures Accounted(Init(Expirable(order, bookings, now)))
  {
    ExpirableDistinct(order, bookings, now);
  }

  /** A batch carried out on the tables is one round of the loop on the list. */
  lemma BatchIsOneRound(order: seq<BookingId>, first: map<BookingId, Booking>, bookings: map<BookingId, Booking>,
                        now: Millis, ls: LoopState, offset: nat, size: nat, outcome: Outcomes)
    requires Distinct(order) && ExpiredFrom(first, bookings) && ls.pending == Expirable(order, bookings, now)
    requires Window(ls.pending, offset, size) != []
    ensures var batch := Window(ls.pending, offset, size);
            var after := StoreBatch(bookings, batch, ls.page, outcome);
            && ExpiredFrom(first, after)
            && Iterate(ls, offset, size, outcome)
               == LoopState(Expirable(order, after, now), if |batch| == size then ls.page + 1 else ls.page,
                            ls.processed + |batch|,
                            ls.succeeded + Ending(batch, outcome, ls.page, {Succeeded}),
                            ls.failed + Ending(batch, outcome, ls.page, {StoredOnly, Unsaved}), |batch| == size)
  {
    var batch := Window(ls.pending, offset, size);
    BatchLeavesPending(order, bookings, now, ls, offset, size, outcome);
    ExpirableMember(order, bookings, now);
    WindowMembers(ls.pending, offset, size);
    StoredBatchIsExpired(first, bookings, batch, ls.page, outcome, now);
  }

  /** The next state of the loop, after a batch of `count` that leaves `pending`. */
  function RoundDone(ls: LoopState, pending: seq<BookingId>, count: nat, size: nat,
                     good: seq<BookingId>, bad: seq<BookingId>): LoopState
  {
    var full := 0 < count == size;
    LoopState(pending, if full then ls.page + 1 else ls.page, ls.processed + count, ls.succeeded + good,
              ls.failed + bad, full)
  }

  /** It can be read off the tables, also when the batch is empty. */
  lemma RoundOnTables(order: seq<BookingId>, bookings: map<BookingId, Booking>, now: Millis, pending: seq<BookingId>,
                      offset: nat, size: nat, outcome: Outcomes, done: nat)
    requires Distinct(order)
    requires var ls := LoopRun(Init(pending), offset, size, outcome, done);
             ls.hasMore && ls.pending == Expirable(order, bookings, now)
    ensures var ls := LoopRun(Init(pending), offset, size, outcome, done);
            var batch := Window(ls.pending, offset, size);
            var after := StoreBatch(bookings, batch, ls.page, outcome);
            && |batch| <= size
            && LoopRun(Init(pending), offset, size, outcome, done + 1)
               == if batch == [] then RoundDone(ls, Expirable(order, bookings, now), 0, size, [], [])
                  else RoundDone(ls, Expirable(order, after, now), |batch|, size,
                                 Ending(batch, outcome, ls.page, {Succeeded}),
                                 Ending(batch, outcome, ls.page, {StoredOnly, Unsaved}))
  {
    var ls := LoopRun(Init(pending), offset, size, outcome, done);
    LoopRunExtends(Init(pending), offset, size, outcome, done);
    if Window(ls.pending, offset, size) == [] {
      EmptyBatchEnds(ls, offset, size, outcome);
    } else {
      WindowParts(ls.pending, offset, size);
      BatchIsOneRound(order, bookings, bookings, now, ls, offset, size, outcome);
    }
  }

  /** Where the loop stopped is where the bounded run is, and its totals add up. */
  lemma Concluded(order: seq<BookingId>, bookings: map<BookingId, Booking>, now: Millis, offset: nat, size: nat,
                  outcome: Outcomes, done: nat, rounds: nat)
    requires Distinct(order) && done <= rounds
    requires var ls := LoopRun(Init(Expirable(order, bookings, now)), offset, size, outcome, done);
             ls.hasMore ==> done == rounds
    ensures var pending := Expirable(order, bookings, now);
            var ls := LoopRun(Init(pending), offset, size, outcome, done);
            && LoopRun(Init(pending), offset, size, outcome, rounds) == ls
            && ls.processed == |ls.succeeded| + |ls.failed| && Distinct(ls.succeeded)
  {
    var first := Init(Expirable(order, bookings, now));
    StartsAccounted(order, bookings, now);
    RunIsAccounted(first, offset, size, outcome, done);
    if done < rounds {
      LoopRunStays(first, offset, size, outcome, done, rounds);
    }
  }

  /** What the loop leaves when it has ended: if every task gets through, just what it never gets to. */
  lemma LeftAtTheEnd(order: seq<BookingId>, first: map<BookingId, Booking>, bookings: map<BookingId, Booking>,
                     now: Millis, offset: nat, size: nat, plans: (nat, BookingId) -> FaultPlan, max: nat, done: nat)
    requires IsDeadlineOrder(order, first) && ExpiredFrom(first, bookings) && size > 0
    requires FullBatchesStore(Expirable(order, first, now), offset, size, TaskOutcomes(plans, max))
    requires var ls := LoopRun(Init(Expirable(order, first, now)), offset, size, TaskOutcomes(plans, max), done);
             !ls.hasMore && ls.pending == Expirable(order, bookings, now)
    ensures LeavesTheOldest(first, bookings, now, offset)
    ensures AllGoThrough(plans, max) ==> KeepsTheOldest(first, bookings, now, offset, ExpiredBookings(bookings, now))
  {
    OldestAreKept(order, first, bookings, now, offset, size, TaskOutcomes(plans, max), done);
    if AllGoThrough(plans, max) {
      StoppedIsTheEnd(Expirable(order, first, now), offset, size, TaskOutcomes(plans, max), done);
      OrderLasts(order, first, bookings);
      AllSucceed(plans, max);
      OnlyTheOldestStay(order, first, bookings, now, offset, size, TaskOutcomes(plans, max));
    }
  }

  class Scheduler {
    const config: Config
    var bookings: map<BookingId, Booking>
    var cars: map<CarId, Car>
    var attempts: nat
    var saves: nat
    var sends: nat
    var notified: nat
    var slept: nat

    constructor (config: Config, bookings: map<BookingId, Booking>, cars: map<CarId, Car>)
      ensures this.config == config && this.bookings == bookings && this.cars == cars
      ensures attempts == saves == sends == notified == slept == 0
    {
      this.config, this.bookings, this.cars := config, bookings, cars;
      attempts, saves, sends, notified, slept := 0, 0, 0, 0, 0;
    }

    /**
     Sends, and after a failed send k sleeps retryDelay * 2^k and tries again, up to the budget. The
     answer is false where the source rethrows.
     */
    method SendExpirationNotification(sendFails: nat -> bool, retryCount: nat) returns (sent: bool)
      requires retryCount <= config.maxRetries
      modifies this`sends, this`slept
      ensures var k := FirstSuccess(sendFails, retryCount, config.maxRetries);
              && sent == !sendFails(k)
              && sends == old(sends) + k - retryCount + 1
              && slept == old(slept) + BackoffSleep(config.retryDelay, retryCount, k)
      decreases config.maxRetries - retryCount
    {
      sends := sends + 1;
      if !sendFails(retryCount) {
        return true;
      }
      if retryCount < config.maxRetries {
        slept := slept + config.retryDelay * Pow2(retryCount);
        sent := SendExpirationNotification(sendFails, retryCount + 1);
        return;
      }
      return false;
    }

    /** The count of the other bookings that hold the car, and the car write after it. */
    method GiveCarBack(id: BookingId)
      requires id in bookings
      modifies this`cars
      ensures cars == CarsAfter(bookings, old(cars), id)
    {
      var carId := bookings[id].carId;
      if |HoldingBookings(bookings, carId, id)| == 0 {
        if carId in cars && cars[carId].status != Available {
          cars := cars[carId := cars[carId].(status := Available)];
        }
      }
    }

    /** One attempt, up to the point where it throws; `done` means that it did not. */
    method TryExpire(id: BookingId, fault: Throws, plan: FaultPlan) returns (done: bool)
      requires id in bookings
      modifies this
      ensures done == (fault == Nowhere)
      ensures attempts == old(attempts) + 1
      ensures saves == old(saves) + (if fault != BeforeSave then 1 else 0)
      ensures notified == old(notified) + (if done then 1 else 0)
      ensures slept == old(slept) + (if done then NotificationSleep(config, plan) else 0)
      ensures bookings == (if fault != BeforeSave
                           then StoreExpired(old(bookings), id) else old(bookings))
      ensures cars == (if done then CarsAfter(old(bookings), old(cars), id) else old(cars))
    {
      attempts := attempts + 1;
      if fault == BeforeSave {
        return false;
      }
      bookings := StoreExpired(bookings, id);
      saves := saves + 1;
      if fault == AfterSave {
        return false;
      }
      HoldersIgnoreTheBooking(old(bookings), id);
      GiveCarBack(id);
      notified := notified + 1;
      var _ := SendExpirationNotification(plan.sendFails, 0);
      return true;
    }

    /**
     With k the first attempt that does not throw, or the last one allowed: the attempts up to k are
     made, with growing sleeps between them; the booking is stored by every attempt that gets that
     far; the car is given back if nothing else holds it, and one notification phase is run, exactly
     when the task reports success; and whether the notification gets through changes none of this.
     */
    method ExpireBooking(id: BookingId, plan: FaultPlan, retryCount: nat) returns (success: bool)
      requires id in bookings && retryCount <= config.maxRetries
      modifies this
      ensures var k := FirstSuccess(Attempt(plan), retryCount, config.maxRetries);
              && success == (plan.attempts(k) == Nowhere)
              && attempts == old(attempts) + k - retryCount + 1
              && saves == old(saves) + SavesBetween(plan, retryCount, k)
              && notified == old(notified) + (if success then 1 else 0)
              && slept == old(slept) + RetrySleep(config.retryDelay, retryCount, k)
                          + (if success then NotificationSleep(config, plan) else 0)
              && bookings == (if SavesBetween(plan, retryCount, k) > 0
                              then StoreExpired(old(bookings), id) else old(bookings))
              && cars == (if success then CarsAfter(old(bookings), old(cars), id) else old(cars))
      decreases config.maxRetries - retryCount
    {
      success := TryExpire(id, plan.attempts(retryCount), plan);
      assert Attempt(plan)(retryCount) == !success;
      if !success && retryCount < config.maxRetries {
        slept := slept + config.retryDelay * (retryCount + 1);
        HoldersIgnoreTheBooking(old(bookings), id);
        success := ExpireBooking(id, plan, retryCount + 1);
      }
    }

    /**
     The batching loop. `order` is the order in which the database lists bookings by deadline, and
     `plans` says where each task fails in each round. The loop of the source has no bound: it ends, as
     fewer and fewer bookings are expirable, if every full batch it selects stores at least one of its
     bookings (`ExpiryLoop.FullBatchesStoreExactly`).
     */
    method ProcessExpiredBookings(now: Millis, order: seq<BookingId>, offset: nat,
                                  plans: (nat, BookingId) -> FaultPlan)
      returns (page: nat, totalProcessed: nat, succeeded: seq<BookingId>, failed: seq<BookingId>)
      requires IsDeadlineOrder(order, bookings) && config.batchSize > 0
      requires FullBatchesStore(Expirable(order, bookings, now), offset, config.batchSize,
                                TaskOutcomes(plans, config.maxRetries))
      modifies this
      ensures LoopState(Expirable(order, bookings, now), page, totalProcessed, succeeded, failed, false)
           == RunToEnd(Expirable(order, old(bookings), now), offset, config.batchSize,
                       TaskOutcomes(plans, config.maxRetries))
      ensures totalProcessed == |succeeded| + |failed| && Distinct(succeeded)
      ensures TablesProgressed(TaskOutcomes(plans, config.maxRetries), page, old(bookings), bookings, old(cars), cars)
      ensures LeavesTheOldest(old(bookings), bookings, now, offset)
      ensures AllGoThrough(plans, config.maxRetries) ==>
                KeepsTheOldest(old(bookings), bookings, now, offset, ExpiredBookings(bookings, now))
    {
      ghost var outcome := TaskOutcomes(plans, config.maxRetries);
      ghost var pending, done := Expirable(order, bookings, now), 0;
      ghost var ls := Init(pending);
      LoopRunUnfolds(ls, offset, config.batchSize, outcome, 0);
      NothingDoneYet(outcome, 0, bookings, cars);
      var hasMore := true;
      page, totalProcessed, succeeded, failed := 0, 0, [], [];
      while hasMore
        invariant ls == LoopState(Expirable(order, bookings, now), page, totalProcessed, succeeded, failed, hasMore)
        invariant ls == LoopRun(Init(pending), offset, config.batchSize, outcome, done)
        invariant TablesProgressed(outcome, page, old(bookings), bookings, old(cars), cars)
        decreases hasMore, |ls.pending|
      {
        page, totalProcessed, succeeded, failed, hasMore, ls := RunRound(now, order, offset, plans, page,
          totalProcessed, succeeded, failed, pending, ls, done, old(bookings), old(cars));
        done := done + 1;
      }
      StoppedIsTheEnd(pending, offset, config.batchSize, outcome, done);
      Concluded(order, old(bookings), now, offset, config.batchSize, outcome, done, done);
      LeftAtTheEnd(order, old(bookings), bookings, now, offset, config.batchSize, plans, config.maxRetries, done);
    }

    /**
     The first `rounds` rounds of the loop, whatever fails; `hasMore` says that it had not finished by then.
     */
    method ProcessRounds(now: Millis, order: seq<BookingId>, offset: nat,
                         plans: (nat, BookingId) -> FaultPlan, rounds: nat)
      returns (page: nat, totalProcessed: nat, succeeded: seq<BookingId>, failed: seq<BookingId>, hasMore: bool)
      requires IsDeadlineOrder(order, bookings)
      modifies this
      ensures LoopState(Expirable(order, bookings, now), page, totalProcessed, succeeded, failed, hasMore)
           == LoopRun(Init(Expirable(order, old(bookings), now)), offset, config.batchSize,
                      TaskOutcomes(plans, config.maxRetries), rounds)
      ensures totalProcessed == |succeeded| + |failed| && Distinct(succeeded)
      ensures TablesProgressed(TaskOutcomes(plans, config.maxRetries), page, old(bookings), bookings, old(cars), cars)
      ensures LeavesTheOldest(old(bookings), bookings, now, offset)
    {
      ghost var outcome := TaskOutcomes(plans, config.maxRetries);
      ghost var pending := Expirable(order, bookings, now);
      ghost var ls := Init(pending);
      LoopRunUnfolds(ls, offset, config.batchSize, outcome, 0);
      NothingDoneYet(outcome, 0, bookings, cars);
      page, hasMore := 0, true;
      totalProcessed, succeeded, failed := 0, [], [];
      var done := 0;
      while hasMore && done < rounds
        invariant done <= rounds
        invariant ls == LoopState(Expirable(order, bookings, now), page, totalProcessed, succeeded, failed, hasMore)
        invariant ls == LoopRun(Init(pending), offset, config.batchSize, outcome, done)
        invariant TablesProgressed(outcome, page, old(bookings), bookings, old(cars), cars)
        decreases rounds - done
      {
        page, totalProcessed, succeeded, failed, hasMore, ls := RunRound(now, order, offset, plans, page,
          totalProcessed, succeeded, failed, pending, ls, done, old(bookings), old(cars));
        done := done + 1;
      }
      Concluded(order, old(bookings), now, offset, config.batchSize, outcome, done, rounds);
      OldestAreKept(order, old(bookings), bookings, now, offset, config.batchSize, outcome, done);
    }

    /** The body of the loop: one batch, and what its outcomes add to the totals. */
    method RunRound(now: Millis, order: seq<BookingId>, offset: nat, plans: (nat, BookingId) -> FaultPlan,
                    page: nat, totalProcessed: nat, succeeded: seq<BookingId>, failed: seq<BookingId>,
                    ghost pending: seq<BookingId>, ghost ls: LoopState, ghost done: nat,
                    ghost firstBookings: map<BookingId, Booking>, ghost firstCars: map<CarId, Car>)
      returns (page': nat, totalProcessed': nat, succeeded': seq<BookingId>, failed': seq<BookingId>, hasMore: bool,
               ghost ls': LoopState)
      requires ls == LoopState(Expirable(order, bookings, now), page, totalProcessed, succeeded, failed, true)
      requires ls == LoopRun(Init(pending), offset, config.batchSize, TaskOutcomes(plans, config.maxRetries), done)
      requires IsDeadlineOrder(order, firstBookings)
      requires TablesProgressed(TaskOutcomes(plans, config.maxRetries), page, firstBookings, bookings, firstCars, cars)
      modifies this
      ensures ls' == LoopState(Expirable(order, bookings, now), page', totalProcessed', succeeded', failed', hasMore)
      ensures ls' == LoopRun(Init(pending), offset, config.batchSize, TaskOutcomes(plans, config.maxRetries), done + 1)
      ensures hasMore && config.batchSize > 0
              && FullBatchesStore(pending, offset, config.batchSize, TaskOutcomes(plans, config.maxRetries)) ==>
                |ls'.pending| < |ls.pending|
      ensures TablesProgressed(TaskOutcomes(plans, config.maxRetries), page', firstBookings, bookings, firstCars, cars)
    {
      RoundShrinks(pending, offset, config.batchSize, TaskOutcomes(plans, config.maxRetries), done);
      var count, good, bad;
      count, good, bad, ls' :=
        SelectAndExpire(now, order, offset, page, plans, pending, ls, done, firstBookings, firstCars);
      succeeded', failed' := succeeded + good, failed + bad;
      totalProcessed' := totalProcessed + count;
      page', hasMore := page, true;
      if count == 0 || count < config.batchSize {
        hasMore := false;
      } else {
        NextPage(TaskOutcomes(plans, config.maxRetries), page, firstBookings, bookings, firstCars, cars);
        page' := page + 1;
      }
    }

    /** The query: past the `offset` oldest expirable bookings, the next batch by deadline. */
    method FindExpirable(now: Millis, order: seq<BookingId>, offset: nat)
      returns (batch: seq<BookingId>, ghost skipped: set<BookingId>)
      requires IsDeadlineOrder(order, bookings)
      ensures batch == Window(Expirable(order, bookings, now), offset, config.batchSize)
      ensures Selects(batch, skipped, bookings, now, offset, config.batchSize)
    {
      batch := Window(Expirable(order, bookings, now), offset, config.batchSize);
      skipped := Ids(Skipped(Expirable(order, bookings, now), offset));
      QueryIsRight(order, bookings, now, offset, config.batchSize);
    }

    /** Selects a batch, the oldest bookings past the offset, and runs its tasks. */
    method SelectAndExpire(now: Millis, order: seq<BookingId>, offset: nat, page: nat,
                           plans: (nat, BookingId) -> FaultPlan,
                           ghost pending: seq<BookingId>, ghost ls: LoopState, ghost done: nat,
                           ghost firstBookings: map<BookingId, Booking>, ghost firstCars: map<CarId, Car>)
      returns (count: nat, good: seq<BookingId>, bad: seq<BookingId>, ghost ls': LoopState)
      requires ls.pending == Expirable(order, bookings, now) && ls.page == page && ls.hasMore
      requires ls == LoopRun(Init(pending), offset, config.batchSize, TaskOutcomes(plans, config.maxRetries), done)
      requires IsDeadlineOrder(order, firstBookings)
      requires TablesProgressed(TaskOutcomes(plans, config.maxRetries), page, firstBookings, bookings, firstCars, cars)
      modifies this
      ensures count <= config.batchSize
      ensures ls' == LoopRun(Init(pending), offset, config.batchSize, TaskOutcomes(plans, config.maxRetries), done + 1)
      ensures ls' == RoundDone(ls, Expirable(order, bookings, now), count, config.batchSize, good, bad)
      ensures TablesProgressed(TaskOutcomes(plans, config.maxRetries), page, firstBookings, bookings, firstCars, cars)
    {
      OrderLasts(order, firstBookings, bookings);
      var batch, _ := FindExpirable(now, order, offset);
      RoundOnTables(order, bookings, now, pending, offset, config.batchSize, TaskOutcomes(plans, config.maxRetries),
                    done);
      ls' := LoopRun(Init(pending), offset, config.batchSize, TaskOutcomes(plans, config.maxRetries), done + 1);
      count, good, bad := |batch|, [], [];
      if batch != [] {
        SelectedAreThere(order, bookings, now, offset, config.batchSize);
        good, bad := RunBatch(batch, page, plans, now, firstBookings, firstCars);
      }
    }

    /** One batch; the tasks run one after the other here, see `ExpiryBatch` for any other interleaving. */
    method RunBatch(batch: seq<BookingId>, page: nat, plans: (nat, BookingId) -> FaultPlan, ghost now: Millis,
                    ghost firstBookings: map<BookingId, Booking>, ghost firstCars: map<CarId, Car>)
      returns (succeeded: seq<BookingId>, failed: seq<BookingId>)
      requires AllExpirable(batch, bookings, now)
      requires TablesProgressed(TaskOutcomes(plans, config.maxRetries), page, firstBookings, bookings, firstCars, cars)
      modifies this
      ensures var outcome := TaskOutcomes(plans, config.maxRetries);
              && bookings == StoreBatch(old(bookings), batch, page, outcome)
              && cars == CarsAfterBatch(old(bookings), old(cars), batch, page, outcome)
              && succeeded == Ending(batch, outcome, page, {Succeeded})
              && failed == Ending(batch, outcome, page, {StoredOnly, Unsaved})
      ensures TablesProgressed(TaskOutcomes(plans, config.maxRetries), page, firstBookings, bookings, firstCars, cars)
    {
      var outcome := TaskOutcomes(plans, config.maxRetries);
      succeeded, failed := [], [];
      var i := 0;
      BatchProgress(outcome, page, firstBookings, bookings, firstCars, cars, batch, now);
      EmptyBatchStoresNothing(bookings, page, outcome);
      while i < |batch|
        invariant i <= |batch|
        invariant bookings == StoreBatch(old(bookings), batch[..i], page, outcome)
        invariant cars == CarsAfterBatch(old(bookings), old(cars), batch[..i], page, outcome)
        invariant succeeded == Ending(batch[..i], outcome, page, {Succeeded})
        invariant failed == Ending(batch[..i], outcome, page, {StoredOnly, Unsaved})
        invariant CarsRight(outcome, page, firstBookings, bookings, firstCars, cars)
      {
        var id := batch[i];
        assert id in batch;
        TaskKeepsCarsRight(outcome, firstBookings, bookings, firstCars, cars, page, id);
        OneMoreTask(old(bookings), batch, i, page, outcome);
        CarsAfterOneMore(old(bookings), old(cars), batch, i, page, outcome);
        var success := RunTask(id, plans(page, id));
        if success {
          succeeded := succeeded + [id];
        } else {
          failed := failed + [id];
        }
        i := i + 1;
      }
      assert batch[..i] == batch;
    }

    /** One task with all its retries, summed up by its outcome. */
    method RunTask(id: BookingId, plan: FaultPlan) returns (success: bool)
      requires id in bookings
      modifies this
      ensures var outcome := OutcomeFrom(plan, 0, config.maxRetries);
              && success == (outcome == Succeeded)
              && bookings == BookingsAfterTask(old(bookings), id, outcome)
              && cars == CarsAfterTask(old(bookings), old(cars), id, outcome)
    {
      TaskStores(plan, config.maxRetries);
      success := ExpireBooking(id, plan, 0);
    }
  }
}
