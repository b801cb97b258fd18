/**
 A batch of expiry tasks running in parallel. The tasks advance one database step at a time in any
 order, any step but the last may throw and send its task back to the start, and all tasks share the
 booking and car tables; nobody else writes them meanwhile.
 */
module ExpiryBatch {
  import opened Rental
  import opened Reservations
  import opened ExpiryTask

  /** The next database step of a task. The notification step swallows its own failures. */
  datatype Pc = AtSave | AtCount | AtCarRead | AtCarWrite | AtNotify | Done(success: bool)

  datatype Task = Task(pc: Pc, retries: nat)

  datatype World = World(bookings: map<BookingId, Booking>, cars: map<CarId, Car>, tasks: map<BookingId, Task>)

  /** Which task moves next, and whether its step throws. */
  datatype Tick = Tick(id: BookingId, throws: bool)

  function Start(bookings: map<BookingId, Booking>, cars: map<CarId, Car>, ids: set<BookingId>): World {
    World(bookings, cars, map id | id in ids :: Task(AtSave, 0))
  }

  function Throw(task: Task, max: nat): Task {
    if task.retries < max then Task(AtSave, task.retries + 1) else task.(pc := Done(false))
  }

  function Step(w: World, tick: Tick, max: nat): World
    requires w.tasks.Keys <= w.bookings.Keys
  {
    var id := tick.id;
    if id !in w.tasks || w.tasks[id].pc.Done? then w
    else
      var task, carId := w.tasks[id], w.bookings[id].carId;
      if tick.throws && task.pc != AtNotify then w.(tasks := w.tasks[id := Throw(task, max)])
      else
        match task.pc
        case AtSave =>
          World(StoreExpired(w.bookings, id), w.cars, w.tasks[id := task.(pc := AtCount)])
        case AtCount =>
          var holding := HoldingBookings(w.bookings, carId, id);
          w.(tasks := w.tasks[id := task.(pc := if |holding| == 0 then AtCarRead else AtNotify)])
        case AtCarRead =>
          var unavailable := carId in w.cars && w.cars[carId].status != Available;
          w.(tasks := w.tasks[id := task.(pc := if unavailable then AtCarWrite else AtNotify)])
        case AtCarWrite =>
          w.(cars := if carId in w.cars then w.cars[carId := w.cars[carId].(status := Available)] else w.cars,
             tasks := w.tasks[id := task.(pc := AtNotify)])
        case AtNotify => w.(tasks := w.tasks[id := task.(pc := Done(true))])
  }

  function RunTicks(w: World, ticks: seq<Tick>, max: nat): (w': World)
    requires w.tasks.Keys <= w.bookings.Keys
    ensures w'.tasks.Keys == w.tasks.Keys && w'.bookings.Keys == w.bookings.Keys
    decreases ticks
  {
    if ticks == [] then w else RunTicks(Step(w, ticks[0], max), ticks[1..], max)
  }

  // ---------- The booking table does not depend on the interleaving ----------

  /** A task that got past its save without throwing since. */
  predicate PastSave(pc: Pc) {
    pc in {AtCount, AtCarRead, AtCarWrite, AtNotify, Done(true)}
  }

  /** The row of one booking: untouched, or its own task has stored it as expired. */
  ghost predicate RowInv(first: World, w: World, id: BookingId) {
    && (id in first.bookings <==> id in w.bookings)
    && (id in first.tasks <==> id in w.tasks)
    && (id in w.bookings ==>
          w.bookings[id] == first.bookings[id] || (id in w.tasks && w.bookings[id] == Lapsed(first.bookings[id])))
    && (id in w.tasks ==> id in w.bookings)
    && (id in w.tasks && PastSave(w.tasks[id].pc) ==> w.bookings[id].status == Expired)
  }

  ghost predicate BookingsInv(first: World, w: World) {
    && w.tasks.Keys <= w.bookings.Keys
    && forall id :: RowInv(first, w, id)
  }

  lemma StepKeepsRow(first: World, w: World, tick: Tick, max: nat, id: BookingId)
    requires w.tasks.Keys <= w.bookings.Keys && RowInv(first, w, id)
    ensures RowInv(first, Step(w, tick, max), id)
  {
  }

  lemma StepKeepsBookings(first: World, w: World, tick: Tick, max: nat)
    requires BookingsInv(first, w)
    ensures BookingsInv(first, Step(w, tick, max))
  {
    forall id
      ensures RowInv(first, Step(w, tick, max), id)
    {
      StepKeepsRow(first, w, tick, max, id);
    }
  }

  lemma {:induction false} RunKeepsBookings(first: World, w: World, ticks: seq<Tick>, max: nat)
    requires BookingsInv(first, w)
    ensures BookingsInv(first, RunTicks(w, ticks, max))
    decreases ticks
  {
    if ticks != [] {
      StepKeepsBookings(first, w, ticks[0], max);
      RunKeepsBookings(first, Step(w, ticks[0], max), ticks[1..], max);
    }
  }

  /** The step throws where the plan of its task says so: at the save, or somewhere after it in the same attempt. */
  predicate Obeys(w: World, tick: Tick, plan: FaultPlan, max: nat)
    requires w.tasks.Keys <= w.bookings.Keys
  {
    tick.id in w.tasks ==>
      var pc, fault := w.tasks[tick.id].pc, plan.attempts(w.tasks[tick.id].retries);
      && (pc == AtSave ==> (tick.throws <==> fault == BeforeSave))
      && (pc in {AtCount, AtCarRead, AtCarWrite} ==>
            && (tick.throws ==> fault == AfterSave)
            && (Step(w, tick, max).tasks[tick.id].pc == AtNotify ==> fault == Nowhere))
  }

  /** Throughout a run the steps of task `id` obey `plan`; those of the other tasks are free. */
  predicate Follows(w: World, ticks: seq<Tick>, max: nat, id: BookingId, plan: FaultPlan)
    requires w.tasks.Keys <= w.bookings.Keys
    decreases ticks
  {
    ticks == [] || ((ticks[0].id == id ==> Obeys(w, ticks[0], plan, max))
                    && Follows(Step(w, ticks[0], max), ticks[1..], max, id, plan))
  }

  ghost predicate StoredBefore(plan: FaultPlan, n: nat) {
    exists j | 0 <= j < n :: plan.attempts(j) != BeforeSave
  }

  /** Where a task stands, in terms of its plan alone. */
  ghost predicate OnPlan(w: World, id: BookingId, max: nat, plan: FaultPlan) {
    && id in w.tasks && id in w.bookings
    && var pc, n := w.tasks[id].pc, w.tasks[id].retries;
       && n <= max && (forall j | 0 <= j < n :: plan.attempts(j) != Nowhere)
       && (pc in {AtCount, AtCarRead, AtCarWrite} ==> plan.attempts(n) != BeforeSave)
       && (pc in {AtNotify, Done(true)} ==> plan.attempts(n) == Nowhere)
       && (pc == Done(false) ==> n == max && plan.attempts(n) != Nowhere)
       && (w.bookings[id].status == Expired <==>
             StoredBefore(plan, n) || (pc != AtSave && plan.attempts(n) != BeforeSave))
  }

  lemma StepStaysOnPlan(w: World, tick: Tick, max: nat, id: BookingId, plan: FaultPlan)
    requires w.tasks.Keys <= w.bookings.Keys && OnPlan(w, id, max, plan)
    requires tick.id == id ==> Obeys(w, tick, plan, max)
    ensures OnPlan(Step(w, tick, max), id, max, plan)
  {
  }

  lemma {:induction false} RunStaysOnPlan(w: World, ticks: seq<Tick>, max: nat, id: BookingId, plan: FaultPlan)
    requires w.tasks.Keys <= w.bookings.Keys && OnPlan(w, id, max, plan) && Follows(w, ticks, max, id, plan)
    ensures OnPlan(RunTicks(w, ticks, max), id, max, plan)
    decreases ticks
  {
    if ticks != [] {
      StepStaysOnPlan(w, ticks[0], max, id, plan);
      RunStaysOnPlan(Step(w, ticks[0], max), ticks[1..], max, id, plan);
    }
  }

  lemma StartsOnPlan(bookings: map<BookingId, Booking>, cars: map<CarId, Car>, ids: set<BookingId>, max: nat,
                     id: BookingId, plan: FaultPlan)
    requires ids <= bookings.Keys && id in ids && Active(bookings[id].status)
    ensures OnPlan(Start(bookings, cars, ids), id, max, plan)
  {
  }

  /** The plan alone decides how a finished task reports and whether its booking was stored. */
  lemma PlanDecides(w: World, id: BookingId, max: nat, plan: FaultPlan)
    requires OnPlan(w, id, max, plan) && w.tasks[id].pc.Done?
    ensures w.tasks[id].pc == Done(true) <==> OutcomeFrom(plan, 0, max) == Succeeded
    ensures w.bookings[id].status == Expired <==> OutcomeFrom(plan, 0, max) != Unsaved
  {
    SucceedsExactlyWhen(plan, max);
  }

  /**
   The interleaving does not matter: a task that has finished reports what it would have reported
   alone with the same faults, and its booking is left as it would have left it alone.
   */
  lemma TasksEndAsIfAlone(bookings: map<BookingId, Booking>, cars: map<CarId, Car>, ids: set<BookingId>,
                          ticks: seq<Tick>, max: nat, id: BookingId, plan: FaultPlan)
    requires ids <= bookings.Keys && id in ids && Active(bookings[id].status)
    requires Follows(Start(bookings, cars, ids), ticks, max, id, plan)
    requires RunTicks(Start(bookings, cars, ids), ticks, max).tasks[id].pc.Done?
    ensures var w, outcome := RunTicks(Start(bookings, cars, ids), ticks, max), OutcomeFrom(plan, 0, max);
            && (w.tasks[id].pc == Done(true) <==> outcome == Succeeded)
            && w.bookings[id] == if outcome == Unsaved then bookings[id] else Lapsed(bookings[id])
  {
    var first := Start(bookings, cars, ids);
    StartsOnPlan(bookings, cars, ids, max, id, plan);
    RunStaysOnPlan(first, ticks, max, id, plan);
    PlanDecides(RunTicks(first, ticks, max), id, max, plan);
    RunKeepsRow(first, ticks, max, id);
  }

  lemma RunKeepsRow(first: World, ticks: seq<Tick>, max: nat, id: BookingId)
    requires BookingsInv(first, first)
    ensures RowInv(first, RunTicks(first, ticks, max), id)
  {
    RunKeepsBookings(first, first, ticks, max);
  }

  /** And no task touches a booking that is not in the batch. */
  lemma OtherBookingsAreUntouched(bookings: map<BookingId, Booking>, cars: map<CarId, Car>, ids: set<BookingId>,
                                  ticks: seq<Tick>, max: nat, id: BookingId)
    requires ids <= bookings.Keys && id !in ids
    ensures var w := RunTicks(Start(bookings, cars, ids), ticks, max);
            (id in w.bookings <==> id in bookings) && (id in bookings ==> w.bookings[id] == bookings[id])
  {
    var first := Start(bookings, cars, ids);
    assert BookingsInv(first, first);
    RunKeepsBookings(first, first, ticks, max);
    assert RowInv(first, RunTicks(first, ticks, max), id);
  }

  // ---------- Cars are given back ----------

  /** A pending, confirmed or converted booking keeps the car. */
  ghost predicate Held(bookings: map<BookingId, Booking>, carId: CarId) {
    exists id | id in bookings ::
      bookings[id].carId == carId && (Active(bookings[id].status) || bookings[id].status == Converted)
  }

  predicate OnCar(w: World, id: BookingId, carId: CarId) {
    id in w.tasks && id in w.bookings && w.bookings[id].carId == carId
  }

  /** Some task on the car still has its count, or the car write after it, ahead of it. */
  ghost predicate StillToCome(w: World, carId: CarId) {
    exists id | id in w.tasks :: OnCar(w, id, carId) && w.tasks[id].pc != AtNotify && w.tasks[id].pc != Done(true)
  }

  predicate AboutToGiveBack(w: World, id: BookingId, carId: CarId) {
    OnCar(w, id, carId) && w.tasks[id].pc in {AtCarRead, AtCarWrite}
  }

  predicate Reopened(before: Car, after: Car) {
    after == before.(status := Available)
  }

  /** A car is only ever given back when nothing holds it. */
  ghost predicate NotEarly(first: World, w: World, carId: CarId) {
    && (carId in w.cars <==> carId in first.cars)
    && (Held(w.bookings, carId) ==> forall id | id in w.tasks :: !AboutToGiveBack(w, id, carId))
    && (carId in w.cars ==>
          || w.cars[carId] == first.cars[carId]
          || (Reopened(first.cars[carId], w.cars[carId]) && !Held(w.bookings, carId)))
  }

  /** A car with tasks that nothing holds any more is available, or some task has yet to find that out. */
  ghost predicate NotForgotten(w: World, carId: CarId) {
    carId in w.cars && !Held(w.bookings, carId) && (exists id | id in w.tasks :: OnCar(w, id, carId)) ==>
      w.cars[carId].status == Available || StillToCome(w, carId)
  }

  /** The count of a task that has saved is zero exactly when nothing holds the car. */
  lemma CountMeansHeld(bookings: map<BookingId, Booking>, id: BookingId)
    requires id in bookings && bookings[id].status == Expired
    ensures |HoldingBookings(bookings, bookings[id].carId, id)| == 0 <==> !Held(bookings, bookings[id].carId)
  {
    var holding := HoldingBookings(bookings, bookings[id].carId, id);
    if Held(bookings, bookings[id].carId) {
      var other :| other in bookings && bookings[other].carId == bookings[id].carId
                && (Active(bookings[other].status) || bookings[other].status == Converted);
      assert other in holding;
    }
    if holding != {} {
      var other :| other in holding;
      assert Held(bookings, bookings[id].carId);
    }
  }

  lemma ExpiringReleasesOnly(bookings: map<BookingId, Booking>, id: BookingId, carId: CarId)
    requires id in bookings
    ensures Held(StoreExpired(bookings, id), carId) ==> Held(bookings, carId)
  {
  }

  lemma StepStaysOnCar(first: World, w: World, tick: Tick, max: nat, id: BookingId, carId: CarId)
    requires BookingsInv(first, w)
    ensures OnCar(Step(w, tick, max), id, carId) <==> OnCar(w, id, carId)
  {
  }

  lemma StepKeepsNotEarly(first: World, w: World, tick: Tick, max: nat, carId: CarId)
    requires BookingsInv(first, w) && NotEarly(first, w, carId)
    ensures NotEarly(first, Step(w, tick, max), carId)
  {
    var id, w' := tick.id, Step(w, tick, max);
    if id in w.tasks && !w.tasks[id].pc.Done? {
      assert RowInv(first, w, id);
      ExpiringReleasesOnly(w.bookings, id, carId);
      assert Held(w'.bookings, carId) ==> Held(w.bookings, carId);
      if Held(w'.bookings, carId) {
        if w.tasks[id].pc == AtCount {
          CountMeansHeld(w.bookings, id);
        }
        forall t | t in w'.tasks
          ensures !AboutToGiveBack(w', t, carId)
        {
          StepStaysOnCar(first, w, tick, max, t, carId);
          assert !AboutToGiveBack(w, t, carId);
        }
      }
    }
  }

  /** A task on another car moves: nothing changes for this one. */
  lemma StepElsewhere(first: World, w: World, tick: Tick, max: nat, carId: CarId)
    requires BookingsInv(first, w) && NotForgotten(w, carId) && !OnCar(w, tick.id, carId)
    ensures NotForgotten(Step(w, tick, max), carId)
  {
    var id, w' := tick.id, Step(w, tick, max);
    if id in w.tasks && !Held(w'.bookings, carId) {
      assert RowInv(first, w, id);
      ExpiringElsewhere(w.bookings, id, carId);
      if t :| t in w'.tasks && OnCar(w', t, carId) {
        StepStaysOnCar(first, w, tick, max, t, carId);
        if StillToCome(w, carId) {
          OthersStillToCome(first, w, tick, max, carId);
        }
      }
    }
  }

  /** A task on the car moves: it still has its count ahead, or has just seen to the car, or leaves others to. */
  lemma StepOnTheCar(first: World, w: World, tick: Tick, max: nat, carId: CarId)
    requires BookingsInv(first, w) && NotForgotten(w, carId) && OnCar(w, tick.id, carId)
    ensures NotForgotten(Step(w, tick, max), carId)
  {
    var id, w' := tick.id, Step(w, tick, max);
    StepStaysOnCar(first, w, tick, max, id, carId);
    if !w.tasks[id].pc.Done? && !Held(w'.bookings, carId) && !StillToCome(w', carId) {
      assert RowInv(first, w, id);
      if w.tasks[id].pc == AtCount {
        CountMeansHeld(w.bookings, id);
      }
      if StillToCome(w, carId) && w.tasks[id].pc == AtNotify {
        OthersStillToCome(first, w, tick, max, carId);
      }
    }
  }

  lemma StepKeepsNotForgotten(first: World, w: World, tick: Tick, max: nat, carId: CarId)
    requires BookingsInv(first, w) && NotForgotten(w, carId)
    ensures NotForgotten(Step(w, tick, max), carId)
  {
    if OnCar(w, tick.id, carId) {
      StepOnTheCar(first, w, tick, max, carId);
    } else {
      StepElsewhere(first, w, tick, max, carId);
    }
  }

  /** A step keeps every witness of `StillToCome` but the moving task. */
  lemma OthersStillToCome(first: World, w: World, tick: Tick, max: nat, carId: CarId)
    requires BookingsInv(first, w) && StillToCome(w, carId)
    requires tick.id in w.tasks ==> !OnCar(w, tick.id, carId) || w.tasks[tick.id].pc == AtNotify
    ensures StillToCome(Step(w, tick, max), carId)
  {
    var t :| t in w.tasks && OnCar(w, t, carId) && w.tasks[t].pc != AtNotify && w.tasks[t].pc != Done(true);
    StepStaysOnCar(first, w, tick, max, t, carId);
    assert Step(w, tick, max).tasks[t] == w.tasks[t];
  }

  lemma ExpiringElsewhere(bookings: map<BookingId, Booking>, id: BookingId, carId: CarId)
    requires id in bookings && bookings[id].carId != carId
    ensures Held(bookings, carId) ==> Held(StoreExpired(bookings, id), carId)
  {
    if Held(bookings, carId) {
      var other :| other in bookings && bookings[other].carId == carId
                && (Active(bookings[other].status) || bookings[other].status == Converted);
      assert StoreExpired(bookings, id)[other] == bookings[other];
    }
  }

  lemma {:induction false} RunKeepsCar(first: World, w: World, ticks: seq<Tick>, max: nat, carId: CarId)
    requires BookingsInv(first, w) && NotEarly(first, w, carId) && NotForgotten(w, carId)
    ensures NotEarly(first, RunTicks(w, ticks, max), carId) && NotForgotten(RunTicks(w, ticks, max), carId)
    decreases ticks
  {
    if ticks != [] {
      StepKeepsBookings(first, w, ticks[0], max);
      StepKeepsNotEarly(first, w, ticks[0], max, carId);
      StepKeepsNotForgotten(first, w, ticks[0], max, carId);
      RunKeepsCar(first, Step(w, ticks[0], max), ticks[1..], max, carId);
    }
  }

  lemma StartIsGood(bookings: map<BookingId, Booking>, cars: map<CarId, Car>, ids: set<BookingId>, carId: CarId)
    requires ids <= bookings.Keys
    ensures var first := Start(bookings, cars, ids);
            BookingsInv(first, first) && NotEarly(first, first, carId) && NotForgotten(first, carId)
  {
  }

  /**
   In every interleaving, once all tasks on a car have reported success: a car left without a pending,
   confirmed or converted booking is available, and a car that still has one is as it was.
   */
  lemma CarsAreGivenBack(bookings: map<BookingId, Booking>, cars: map<CarId, Car>, ids: set<BookingId>,
                         ticks: seq<Tick>, max: nat, carId: CarId)
    requires ids <= bookings.Keys
    requires carId in cars && exists t | t in ids :: bookings[t].carId == carId
    requires var w := RunTicks(Start(bookings, cars, ids), ticks, max);
             forall t | t in ids :: bookings[t].carId == carId ==> w.tasks[t].pc == Done(true)
    ensures var w := RunTicks(Start(bookings, cars, ids), ticks, max);
            && carId in w.cars
            && (if Held(w.bookings, carId) then w.cars[carId] == cars[carId] else Reopened(cars[carId], w.cars[carId]))
  {
    var first := Start(bookings, cars, ids);
    var w := RunTicks(first, ticks, max);
    StartIsGood(bookings, cars, ids, carId);
    RunKeepsBookings(first, first, ticks, max);
    RunKeepsCar(first, first, ticks, max, carId);
    NothingToCome(first, w, carId);
    var t :| t in ids && bookings[t].carId == carId;
    AllSeenTo(first, w, carId, t);
  }

  lemma AllSeenTo(first: World, w: World, carId: CarId, t: BookingId)
    requires RowInv(first, w, t) && t in first.tasks && t in first.bookings && first.bookings[t].carId == carId
    requires carId in first.cars && NotEarly(first, w, carId) && NotForgotten(w, carId) && !StillToCome(w, carId)
    ensures carId in w.cars
    ensures if Held(w.bookings, carId) then w.cars[carId] == first.cars[carId]
            else Reopened(first.cars[carId], w.cars[carId])
  {
  }

  lemma NothingToCome(first: World, w: World, carId: CarId)
    requires BookingsInv(first, w)
    requires forall t | t in first.tasks && OnCar(first, t, carId) :: t in w.tasks && w.tasks[t].pc == Done(true)
    ensures !StillToCome(w, carId)
  {
    forall t | t in w.tasks && OnCar(w, t, carId)
      ensures w.tasks[t].pc == Done(true)
    {
      assert RowInv(first, w, t);
    }
  }

  /** Without any assumption on success: a car whose row changed is held by nothing, and only its status was set. */
  lemma CarsAreNotGivenBackEarly(bookings: map<BookingId, Booking>, cars: map<CarId, Car>, ids: set<BookingId>,
                                 ticks: seq<Tick>, max: nat, carId: CarId)
    requires ids <= bookings.Keys && carId in cars
    ensures var w := RunTicks(Start(bookings, cars, ids), ticks, max);
            && carId in w.cars
            && (w.cars[carId] != cars[carId] ==> !Held(w.bookings, carId) && Reopened(cars[carId], w.cars[carId]))
  {
    var first := Start(bookings, cars, ids);
    StartIsGood(bookings, cars, ids, carId);
    RunKeepsCar(first, first, ticks, max, carId);
  }

  /** A car that no task of the batch is about. */
  ghost predicate NoTaskOn(w: World, carId: CarId) {
    forall id | id in w.tasks :: !OnCar(w, id, carId)
  }

  lemma StepLeavesOtherCars(first: World, w: World, tick: Tick, max: nat, carId: CarId)
    requires BookingsInv(first, w)
    ensures var w' := Step(w, tick, max);
            && (carId in w.cars <==> carId in w'.cars)
            && (NoTaskOn(w, carId) ==> NoTaskOn(w', carId) && (carId in w.cars ==> w'.cars[carId] == w.cars[carId]))
  {
  }

  lemma {:induction false} RunLeavesOtherCars(first: World, w: World, ticks: seq<Tick>, max: nat, carId: CarId)
    requires BookingsInv(first, w)
    ensures var w' := RunTicks(w, ticks, max);
            && (carId in w.cars <==> carId in w'.cars)
            && (NoTaskOn(w, carId) && carId in w.cars ==> w'.cars[carId] == w.cars[carId])
    decreases ticks
  {
    if ticks != [] {
      StepKeepsBookings(first, w, ticks[0], max);
      StepLeavesOtherCars(first, w, ticks[0], max, carId);
      RunLeavesOtherCars(first, Step(w, ticks[0], max), ticks[1..], max, carId);
    }
  }

  /** A batch adds and removes no car, and leaves the cars alone that its bookings are not about. */
  lemma OtherCarsAreUntouched(bookings: map<BookingId, Booking>, cars: map<CarId, Car>, ids: set<BookingId>,
                              ticks: seq<Tick>, max: nat, carId: CarId)
    requires ids <= bookings.Keys
    ensures var w := RunTicks(Start(bookings, cars, ids), ticks, max);
            && (carId in w.cars <==> carId in cars)
            && (carId in cars && (forall t | t in ids :: bookings[t].carId != carId) ==> w.cars[carId] == cars[carId])
  {
    StartIsGood(bookings, cars, ids, carId);
    RunLeavesOtherCars(Start(bookings, cars, ids), Start(bookings, cars, ids), ticks, max, carId);
  }

  // ---------- Every task finishes ----------

  function StepsLeft(task: Task, max: nat): int {
    match task.pc
    case Done(_) => 0
    case AtSave => 6 * (max - task.retries) + 5
    case AtCount => 6 * (max - task.retries) + 4
    case AtCarRead => 6 * (max - task.retries) + 3
    case AtCarWrite => 6 * (max - task.retries) + 2
    case AtNotify => 6 * (max - task.retries) + 1
  }

  function TicksOf(ticks: seq<Tick>, id: BookingId): nat {
    if ticks == [] then 0 else (if ticks[0].id == id then 1 else 0) + TicksOf(ticks[1..], id)
  }

  /** A task makes at most six steps per attempt, whatever throws and whoever runs in between. */
  lemma {:induction false} EveryTaskFinishes(w: World, ticks: seq<Tick>, max: nat, id: BookingId)
    requires w.tasks.Keys <= w.bookings.Keys && id in w.tasks && w.tasks[id].retries <= max
    requires TicksOf(ticks, id) >= StepsLeft(w.tasks[id], max)
    ensures RunTicks(w, ticks, max).tasks[id].pc.Done?
    decreases ticks
  {
    if ticks != [] {
      EveryTaskFinishes(Step(w, ticks[0], max), ticks[1..], max, id);
    }
  }
}
