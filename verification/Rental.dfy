/**
 The rental domain: rows of the booking, contract and car tables, and the date and price
 arithmetic of the booking service.

 Instants are integer milliseconds. A `date` column keeps only the day, that is the instant
 divided by 86,400,000 and rounded down; `setHours(0,0,0,0)` is the same floor. Money is `real`.
 */
module Rental {
  import opened Wrappers

  type Millis = int
  type Day = int
  type BookingId = nat
  type ContractId = nat
  type CarId = nat
  type CustomerId = nat
  type UserId = nat

  const MILLIS_PER_DAY: int := 86_400_000
  const MAX_RENTAL_DAYS: int := 365
  const MIN_REASON_LENGTH: int := 10

  datatype BookingStatus = Pending | Confirmed | Cancelled | Converted | Expired

  datatype CarStatus = Available | Archived | Deleted

  datatype Car = Car(status: CarStatus, pricePerDay: real, isDeleted: bool)

  datatype Extra = Extra(quantity: real, pricePerDay: real)

  datatype Booking = Booking(
    customerId: Option<CustomerId>,
    carId: CarId,
    startDay: Day,
    endDay: Day,
    pickupLocation: Option<string>,
    dropoffLocation: Option<string>,
    additionalDrivers: Option<seq<string>>,
    extras: Option<seq<Extra>>,
    notes: Option<string>,
    totalEstimatedCost: real,
    depositAmount: real,
    depositPaid: bool,
    status: BookingStatus,
    expiresAt: Millis,
    createdBy: UserId,
    updatedBy: Option<UserId>,
    cancelledAt: Option<Millis>,
    cancellationReason: Option<string>,
    convertedToContractId: Option<ContractId>,
    convertedAt: Option<Millis>)

  datatype Contract = Contract(
    customerId: CustomerId,
    carId: CarId,
    startDay: Day,
    endDay: Day,
    dailyRate: real,
    totalAmount: real,
    notificationSent: bool,
    createdBy: UserId,
    updatedBy: Option<UserId>)

  datatype Error =
    | NotFound
    | CarNotFound
    | CustomerNotFound
    | CarNotAvailable
    | InvalidStartDate
    | InvalidEndDate
    | StartInPast
    | EndNotAfterStart
    | TooLong
    | Conflict(conflicting: nat)
    | DatesTaken
    | InvalidTransition
    | NotPending
    | NotConfirmed
    | DepositNotPaid
    | DeadlinePassed
    | ReasonTooShort
    | AlreadyCancelled
    | AlreadyConverted
    | NotActive

  /** A date string as the service sees it: parsed, or `Invalid Date`. */
  datatype DateInput = Instant(at: Millis) | InvalidDate

  predicate Active(status: BookingStatus) {
    status == Pending || status == Confirmed
  }

  // ---------- Dates ----------

  function DayOf(t: Millis): Day {
    t / MILLIS_PER_DAY
  }

  function Midnight(d: Day): Millis {
    d * MILLIS_PER_DAY
  }

  function Abs(x: int): nat {
    if x < 0 then -x else x
  }

  /** `Math.ceil(Math.abs(end - start) / day)`. */
  function CalculateDays(start: Millis, end: Millis): nat {
    (Abs(end - start) + MILLIS_PER_DAY - 1) / MILLIS_PER_DAY
  }

  function ValidateDates(start: Millis, end: Millis, now: Millis): Option<Error> {
    if DayOf(start) < DayOf(now) then Some(StartInPast)
    else if end <= start then Some(EndNotAfterStart)
    else if CalculateDays(start, end) > MAX_RENTAL_DAYS then Some(TooLong)
    else None
  }

  /** The sooner of 24 hours before the start and seven days from now. */
  function CalculateExpirationDate(start: Millis, now: Millis): Millis {
    var sevenDaysFromNow := now + 7 * MILLIS_PER_DAY;
    var oneDayBeforeStart := start - MILLIS_PER_DAY;
    if sevenDaysFromNow < oneDayBeforeStart then sevenDaysFromNow else oneDayBeforeStart
  }

  /** `CalculateDays` is the exact ceiling: the least number of whole days that covers the span. */
  lemma DaysAreTheCeiling(start: Millis, end: Millis, n: nat)
    ensures Abs(end - start) <= n * MILLIS_PER_DAY <==> CalculateDays(start, end) <= n
  {
  }

  /** Dates pass validation exactly when they start today or later and span more than 0 and at most 365 days. */
  lemma ValidDatesExactly(start: Millis, end: Millis, now: Millis)
    ensures ValidateDates(start, end, now).None? <==>
            Midnight(DayOf(now)) <= start && start < end <= start + MAX_RENTAL_DAYS * MILLIS_PER_DAY
    ensures ValidateDates(start, end, now).None? ==>
              1 <= CalculateDays(start, end) <= MAX_RENTAL_DAYS && DayOf(start) <= DayOf(end)
  {
  }

  /** Splitting a rental at an instant inside it costs no day less and at most one day more. */
  lemma SplittingCostsAtMostOneDay(start: Millis, middle: Millis, end: Millis)
    requires start <= middle <= end
    ensures CalculateDays(start, end)
         <= CalculateDays(start, middle) + CalculateDays(middle, end)
         <= CalculateDays(start, end) + 1
  {
  }

  /** The deadline is the greatest instant that respects both limits. */
  lemma DeadlineIsTheSoonerLimit(start: Millis, now: Millis, t: Millis)
    ensures t <= CalculateExpirationDate(start, now) <==>
            t <= now + 7 * MILLIS_PER_DAY && t <= start - MILLIS_PER_DAY
  {
  }

  // ---------- Prices ----------

  function CalculateEstimatedCost(dailyRate: real, start: Millis, end: Millis): real {
    dailyRate * CalculateDays(start, end) as real
  }

  function ExtraCost(x: Extra, days: nat): real {
    x.pricePerDay * x.quantity * days as real
  }

  /** `extras.reduce((sum, extra) => sum + extra.pricePerDay * extra.quantity * days, sum)`. */
  function AddExtras(sum: real, extras: seq<Extra>, days: nat): real
    decreases extras
  {
    if extras == [] then sum
    else AddExtras(sum + ExtraCost(extras[0], days), extras[1..], days)
  }

  function ExtrasCost(extras: Option<seq<Extra>>, start: Millis, end: Millis): real {
    if extras.Some? && |extras.value| > 0 then AddExtras(0.0, extras.value, CalculateDays(start, end)) else 0.0
  }

  function TotalCost(dailyRate: real, extras: Option<seq<Extra>>, start: Millis, end: Millis): real {
    CalculateEstimatedCost(dailyRate, start, end) + ExtrasCost(extras, start, end)
  }

  /** What the extras cost for one day: the sum of quantity times price. */
  function ExtrasPerDay(extras: seq<Extra>): real {
    if extras == [] then 0.0
    else extras[0].quantity * extras[0].pricePerDay + ExtrasPerDay(extras[1..])
  }

  /** One extra more costs its quantity times its price per day; no extras cost nothing. */
  lemma {:induction false} ExtrasAddUp(extras: seq<Extra>, x: Extra)
    ensures ExtrasPerDay([]) == 0.0
    ensures ExtrasPerDay(extras + [x]) == ExtrasPerDay(extras) + x.quantity * x.pricePerDay
  {
    if extras == [] {
      assert extras + [x] == [x] && [x][1..] == [];
    } else {
      assert (extras + [x])[1..] == extras[1..] + [x];
      ExtrasAddUp(extras[1..], x);
    }
  }

  lemma Distribute(p: real, q: real, d: real, rest: real)
    ensures p * q * d + d * rest == d * (q * p + rest)
  {
  }

  lemma {:induction false} AddExtrasIsLinear(sum: real, extras: seq<Extra>, days: nat)
    ensures AddExtras(sum, extras, days) == sum + days as real * ExtrasPerDay(extras)
    decreases extras
  {
    if extras == [] {
    } else {
      var x := extras[0];
      AddExtrasIsLinear(sum + ExtraCost(x, days), extras[1..], days);
      Distribute(x.pricePerDay, x.quantity, days as real, ExtrasPerDay(extras[1..]));
    }
  }

  /** The price is the number of days times what one day costs, car and extras together. */
  lemma TotalCostIsPerDay(dailyRate: real, extras: Option<seq<Extra>>, start: Millis, end: Millis)
    ensures TotalCost(dailyRate, extras, start, end)
         == CalculateDays(start, end) as real * (dailyRate + ExtrasPerDay(extras.GetOr([])))
  {
    var d := CalculateDays(start, end);
    AddExtrasIsLinear(0.0, extras.GetOr([]), d);
    assert dailyRate * d as real == d as real * dailyRate;
    assert d as real * (dailyRate + ExtrasPerDay(extras.GetOr([])))
        == d as real * dailyRate + d as real * ExtrasPerDay(extras.GetOr([]));
  }

  // ---------- Text ----------

  predicate IsSpace(c: char) {
    c in {' ', '\t', '\n', '\r', '\U{000B}', '\U{000C}', '\U{00A0}', '\U{1680}', '\U{2028}', '\U{2029}',
          '\U{202F}', '\U{205F}', '\U{3000}', '\U{FEFF}'}
    || '\U{2000}' <= c <= '\U{200A}'
  }

  /** JavaScript's `trim`. */
  function Trim(s: string): string {
    if s == [] then []
    else if IsSpace(s[0]) then Trim(s[1..])
    else if IsSpace(s[|s| - 1]) then Trim(s[..|s| - 1])
    else s
  }
}
