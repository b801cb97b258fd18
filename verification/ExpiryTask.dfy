/**
 One task of the expiry scheduler, on values: where its faults strike, how often it tries, what it
 stores and how long it sleeps. `BookingScheduler` carries it out.
 */
module ExpiryTask {
  import opened Rental
  import opened Reservations

  datatype Config = Config(maxRetries: nat, retryDelay: nat, batchSize: nat)

  /** The values the source fixes; the batch size comes from the environment and is positive. */
  const MAX_RETRIES := 3
  const RETRY_DELAY := 1000

  /** Where an attempt throws: not at all, before the booking is stored, or after that, at the count or the car. */
  datatype Throws = Nowhere | BeforeSave | AfterSave

  /** For each attempt where it throws, and for each send of the notification whether it throws. */
  datatype FaultPlan = FaultPlan(attempts: nat -> Throws, sendFails: nat -> bool)

  /** How a task ends: with success, or with failure though the booking is stored, or with nothing stored. */
  datatype TaskOutcome = Succeeded | StoredOnly | Unsaved

  // ---------- The retry discipline ----------

  /** The first index from `i` on that does not fail, or `max` when all up to it do. */
  function FirstSuccess(fails: nat -> bool, i: nat, max: nat): (k: nat)
    requires i <= max
    ensures i <= k <= max
    ensures forall j | i <= j < k :: fails(j)
    ensures k < max ==> !fails(k)
    decreases max - i
  {
    if i == max || !fails(i) then i else FirstSuccess(fails, i + 1, max)
  }

  function Attempt(plan: FaultPlan): nat -> bool {
    (k: nat) => plan.attempts(k) != Nowhere
  }

  /** How many of the attempts i..k store the booking. */
  function SavesBetween(plan: FaultPlan, i: nat, k: nat): nat
    requires i <= k
    decreases k - i
  {
    (if plan.attempts(i) != BeforeSave then 1 else 0) + if i == k then 0 else SavesBetween(plan, i + 1, k)
  }

  /** What a task makes of its faults, from attempt `i` on. */
  function OutcomeFrom(plan: FaultPlan, i: nat, max: nat): TaskOutcome
    requires i <= max
  {
    var k := FirstSuccess(Attempt(plan), i, max);
    if plan.attempts(k) == Nowhere then Succeeded
    else if SavesBetween(plan, i, k) > 0 then StoredOnly
    else Unsaved
  }

  function Pow2(k: nat): nat {
    if k == 0 then 1 else 2 * Pow2(k - 1)
  }

  /** The milliseconds slept between attempts i and k: the delay times i+1, then i+2, ... */
  function RetrySleep(delay: nat, i: nat, k: nat): nat
    requires i <= k
    decreases k - i
  {
    if i == k then 0 else delay * (i + 1) + RetrySleep(delay, i + 1, k)
  }

  /** The milliseconds slept between sends i and k: the delay times 2^i, then 2^(i+1), ... */
  function BackoffSleep(delay: nat, i: nat, k: nat): nat
    requires i <= k
    decreases k - i
  {
    if i == k then 0 else delay * Pow2(i) + BackoffSleep(delay, i + 1, k)
  }

  /** In closed form: the delay times the difference of triangular numbers, and of powers of two. */
  lemma {:induction false} SleepInClosedForm(delay: nat, i: nat, k: nat)
    requires i <= k
    ensures 2 * RetrySleep(delay, i, k) == delay * (k * (k + 1) - i * (i + 1))
    ensures BackoffSleep(delay, i, k) == delay * (Pow2(k) - Pow2(i))
    decreases k - i
  {
    if i < k {
      SleepInClosedForm(delay, i + 1, k);
      assert (i + 1) * (i + 2) == i * (i + 1) + 2 * (i + 1);
      TimesSum(delay, 2 * (i + 1), k * (k + 1) - (i + 1) * (i + 2));
      TimesSum(delay, Pow2(i), Pow2(k) - Pow2(i + 1));
    }
  }

  /** From the third retry on, doubling sleeps longer in all than adding one delay more each time. */
  lemma {:induction false} DoublingOvertakes(k: nat)
    requires k >= 3
    ensures k * (k + 1) < 2 * (Pow2(k) - 1) && 2 * k + 2 <= Pow2(k)
  {
    if k == 3 {
      assert Pow2(3) == 2 * Pow2(2) == 4 * Pow2(1) == 8;
    } else {
      DoublingOvertakes(k - 1);
      NextTriangle(k);
    }
  }

  lemma NextTriangle(k: nat)
    ensures k * (k + 1) == (k - 1) * k + 2 * k
  {
  }

  /** The retries of a booking back off like those of the notification exactly up to two retries, or without delay. */
  lemma RetriesBackOffExactly(delay: nat, k: nat)
    ensures RetrySleep(delay, 0, k) == BackoffSleep(delay, 0, k) <==> delay == 0 || k <= 2
  {
    SleepInClosedForm(delay, 0, k);
    if k <= 2 {
      assert Pow2(0) == 1 && Pow2(1) == 2 * Pow2(0) && Pow2(2) == 2 * Pow2(1);
      assert k == 0 || k == 1 || k == 2;
    } else {
      DoublingOvertakes(k);
      SmallerProduct(delay, k * (k + 1), 2 * (Pow2(k) - 1));
    }
  }

  lemma SmallerProduct(d: nat, x: int, y: int)
    requires x < y
    ensures d * x == d * y <==> d == 0
  {
  }

  lemma TimesSum(d: int, x: int, y: int)
    ensures d * x + d * y == d * (x + y)
  {
  }

  lemma {:induction false} SaveMeansStored(plan: FaultPlan, i: nat, k: nat)
    requires i <= k
    ensures SavesBetween(plan, i, k) > 0 <==> exists j | i <= j <= k :: plan.attempts(j) != BeforeSave
    ensures SavesBetween(plan, i, k) <= k - i + 1
    decreases k - i
  {
    if i < k {
      SaveMeansStored(plan, i + 1, k);
    }
    if plan.attempts(i) != BeforeSave {
      assert exists j | i <= j <= k :: plan.attempts(j) != BeforeSave;
    }
  }

  /** The number of saves is the number of attempts that get past the save. */
  lemma {:induction false} SavesAreCounted(plan: FaultPlan, i: nat, k: nat)
    requires i <= k
    ensures SavesBetween(plan, i, k) == |set j | i <= j <= k && plan.attempts(j) != BeforeSave|
    decreases k - i
  {
    var all := set j | i <= j <= k && plan.attempts(j) != BeforeSave;
    var here := if plan.attempts(i) != BeforeSave then {i} else {};
    if i < k {
      SavesAreCounted(plan, i + 1, k);
      assert all == here + set j | i + 1 <= j <= k && plan.attempts(j) != BeforeSave;
    } else {
      assert all == here;
    }
  }

  /** A task reports success exactly when some attempt within the budget throws nothing; then the booking is stored. */
  lemma SucceedsExactlyWhen(plan: FaultPlan, max: nat)
    ensures OutcomeFrom(plan, 0, max) == Succeeded <==> exists k | 0 <= k <= max :: plan.attempts(k) == Nowhere
    ensures OutcomeFrom(plan, 0, max) == Unsaved <==> forall k | 0 <= k <= max :: plan.attempts(k) == BeforeSave
  {
    var k := FirstSuccess(Attempt(plan), 0, max);
    SaveMeansStored(plan, 0, k);
    forall j | 0 <= j < k
      ensures plan.attempts(j) != Nowhere
    {
      assert Attempt(plan)(j);
    }
    if k < max {
      assert !Attempt(plan)(k);
    }
  }

  // ---------- Tables ----------

  function Lapsed(b: Booking): Booking {
    b.(status := Expired)
  }

  function StoreExpired(bookings: map<BookingId, Booking>, id: BookingId): map<BookingId, Booking>
    requires id in bookings
  {
    bookings[id := Lapsed(bookings[id])]
  }

  /** The cars after a completed task: its car is given back when no other booking holds it. */
  function CarsAfter(bookings: map<BookingId, Booking>, cars: map<CarId, Car>, id: BookingId): map<CarId, Car>
    requires id in bookings
  {
    var carId := bookings[id].carId;
    if |HoldingBookings(bookings, carId, id)| == 0 && carId in cars
    then cars[carId := cars[carId].(status := Available)] else cars
  }

  function NotificationSleep(config: Config, plan: FaultPlan): nat {
    BackoffSleep(config.retryDelay, 0, FirstSuccess(plan.sendFails, 0, config.maxRetries))
  }

  lemma HoldersIgnoreTheBooking(bookings: map<BookingId, Booking>, id: BookingId)
    requires id in bookings
    ensures var carId := bookings[id].carId;
            HoldingBookings(StoreExpired(bookings, id), carId, id) == HoldingBookings(bookings, carId, id)
  {
  }

  /** With the configured three retries and one second: at most 6 seconds between attempts and 7 between sends. */
  lemma ConfiguredSleep(attempts: nat, sends: nat)
    requires attempts <= MAX_RETRIES && sends <= MAX_RETRIES
    ensures RetrySleep(RETRY_DELAY, 0, attempts) <= 6_000
    ensures BackoffSleep(RETRY_DELAY, 0, sends) <= 7_000
  {
  }
}
