# Car rental: reservations, expiry and analytics, verified in Dafny

This project models the decision-making core of a car rental backend and proves what it keeps over whole runs.

- **Reservations.** Bookings and contracts are two tables with a clock. `Reservations` says on values what every
  route does to them: create, update, confirm, cancel, convert, the three ways to expire, delete, and the contract
  calls. `Services` has the services as objects that work step by step and are proved to do exactly that.
  `Calendar`, `Lifecycle` and `Conversion` prove what holds after any run: no double booking, statuses that only move
  down, deadlines, single conversion, occupancy conserved by conversion, prices. `StoredRows` has what each call stores
  column by column and why it refuses. `Rental` has the dates and prices.
- **Expiry scheduler.** `ExpiryTask` is one task with its nested retries, `ExpiryBatch` a batch of tasks interleaved
  step by step on shared car rows, `ExpiryLoop` the batching loop over a list that shrinks as it works,
  `ExpiryQuery` the query for the oldest bookings, and `BookingScheduler` all of it carried out on the tables by an
  object.
- **Analytics.** `CostAnalytics` groups, merges and breaks down a car's costs (`KeyedMap`, `StableSort` and `Decimal`
  are the map, the sort and the number texts it relies on); `TopExpenses` is the plain fold it must agree with.
  `MaintenanceAlerts` judges one car, `FleetMaintenance` all of them, and the two are compared.
- **Smaller pieces.** `Csv` (the audit export and a reader for it), `Redaction` (secrets in audit data) and
  `AuditObjects` (the same on objects in memory), `Pagination`. `Lists` and `Wrappers` are shared.
- `Counterexamples` has an input for each promise that the code does not keep; the lemma it names says exactly
  when the code does.

Instants are integer milliseconds, days are 86,400,000 of them, `setHours(0,0,0,0)` rounds down to a day, and money is
exact. Every route is one atomic step, except in `ExpiryBatch`, where single database steps interleave.

## Where the code differs from what it says

The model follows the code.

- `processExpiredBookings` promises all expired bookings (src/scripts/bookingScheduler.ts:341, docs/BOOKING_SCHEDULER.md:274)
  but skips a batch in every selection (line 378): the oldest batch is never expired, and with at most one batch
  nothing is.
- The retries of a booking are documented with exponential backoff (docs/BOOKING_SCHEDULER.md:55); they wait
  linearly (src/scripts/bookingScheduler.ts:321). Only the notification backs off exponentially (line 146).
- Confirmation needs a paid deposit and conversion makes a contract, but `update` accepts a raw status and does
  neither (src/services/booking.service.ts:186-203). It also leaves the price alone when only extras change (line 206).
- The transition table forbids leaving EXPIRED, but `cancelBooking` does not ask it (lines 379-392).
- `null` extras in an update with a date are stored but priced as if left out (lines 199 and 257).
- Bulk expiry reports written rows as failed when reading them back fails (lines 510-512 and 547-581).
- The booking check does not see contracts, so "no conflicts" (line 117) means none among bookings.
- The scheduler sets a car available when its last booking expires, whatever its status was before, archived and
  deleted included (src/scripts/bookingScheduler.ts:268-270); `create` then books it, as it asks for the status only.
  But a task that fails for good after its save leaves the car, although the documentation has it restored; whether
  another task of the batch then gives it back depends on their order.
- The redaction list is compared with lowercased keys although it holds names in camel case: `apiKey` protects
  nothing (src/services/audit-log.service.ts:36-61).
- The export quotes descriptions only (src/controllers/audit-log.controller.ts:250).
- "Cars with expired documents" counts documents (src/services/cross-car-analytics.service.ts:198 and 217).

## Model

| member | source | states |
|---|---|---|
| Calendar.NoDoubleBooking | src/services/booking.service.ts:91-271 | After any run of all routes from any store that keeps the invariant, every car has at most one active booking, and at most one contract, on every day. |
| Calendar.RunKeepsInv | src/services/booking.service.ts:180-271 | The invariant behind it (active bookings of a car do not overlap, bookings are dated forwards, contracts that cover a day do not overlap, identifiers are fresh) holds of the empty tables and survives any run. |
| Calendar.CallKeepsInv | src/services/booking.service.ts:407-463 | Each of the fourteen routes keeps that invariant, accepted or rejected. |
| Calendar.AvailableIffEveryDayIsFree | src/repositories/booking.repository.ts:241-266 | The overlap query answers whether every requested day is free of active bookings other than the excluded one; dates the wrong way round are characterised too. |
| Calendar.ContractQueryExactly | src/repositories/contract.repository.ts:99-117 | The contract query accepts exactly when every requested day is free and no contract stored the wrong way round lies across the period. |
| Calendar.ActiveContractsNameEachCarOnce | src/repositories/contract.repository.ts:35-46 | After any run, today's active contracts never show a car twice, although `create` does not check the order of dates. |
| Calendar.CallsTakeOnlyFreeDays | src/services/booking.service.ts:180-271 | A call only gives back days of the bookings it is about or takes days no other booking holds; every other booking's days stay. |
| Calendar.BookingOverContractsExactly | src/services/booking.service.ts:117-128 | A new booking keeps a car's two calendars disjoint if and only if no contract covers a requested day: the booking check ignores contracts. |
| Lifecycle.StatusUpdatesExactly | src/services/booking.service.ts:706-728 | A raw status update is accepted exactly for the six pairs of the transition table, which are written out; all laws about the table are stated with these pairs. |
| Lifecycle.TableHoldsThroughout | src/services/booking.service.ts:706-728 | At every step of every run a booking keeps its status or moves by one of the six pairs, but for expired bookings that are cancelled. |
| Lifecycle.ReachedFrom | src/services/booking.service.ts:706-728 | In any run a booking that became converted was confirmed just before, and one that became confirmed was pending. |
| Lifecycle.OneCallMovesDown | src/services/booking.service.ts:371-395 | One call, by any route, leaves a booking's status or lowers its rank by a move of the transition table or by cancelling an expired booking; deadline, car and customer stay. |
| Lifecycle.TableIsObeyedExactly | src/services/booking.service.ts:379-392 | A status change by any route obeys the transition table unless it is the cancelling of an expired booking, and that one never does. |
| Lifecycle.AtMostThreeChanges | src/services/booking.service.ts:706-728 | In any run no booking changes status more than three times. |
| Lifecycle.NoWayBack | src/services/booking.service.ts:706-728 | Over any stretch of any run, a booking that left pending and confirmed never returns there, and cancelled or converted never change. |
| Lifecycle.RowsAppearPending | src/services/booking.service.ts:154-172 | Bookings appear only through `create`, under the next fresh identifier, pending and unpaid. |
| Lifecycle.DeadlineHolds | src/services/booking.service.ts:303-360 | Whenever a booking made earlier in the run is confirmed or converted, it is no later than seven days after its creation and a day before the start it was created with, whatever was updated in between. |
| Lifecycle.ConvertedOnce | src/services/booking.service.ts:407-463 | In any run, no booking is converted by two calls. |
| Lifecycle.ConfirmedUnpaidExactly | src/services/booking.service.ts:186-203 | A booking becomes confirmed without a paid deposit exactly through an `update` whose merged deposit flag is off. |
| Lifecycle.ConvertedWithoutContractExactly | src/services/booking.service.ts:186-203 | A booking becomes converted without a new contract exactly through `update`; `convertToContract` always adds one and links it. |
| Conversion.ConversionConservesOccupancy | src/services/booking.service.ts:436-462 | A conversion leaves, for every car and day, the number of active bookings plus contracts covering it unchanged. |
| Conversion.ConversionMakesTheContract | src/services/booking.service.ts:436-462 | The new contract has the booking's car, customer, days and total and the car's daily rate, the booking points to it, and no other row changes. |
| Conversion.ConvertsExactlyWhen | src/services/booking.service.ts:407-452 | Conversion succeeds if and only if the booking is confirmed, paid and in time, car and customer exist undeleted, and no contract covers or straddles its days. |
| Conversion.CreatesExactlyWhen | src/services/booking.service.ts:91-128 | A booking is created if and only if the car is there and available, the dates parse, start today or later, span more than 0 and at most 365 days, and every day is free. |
| Calendar.CreateReserves | src/services/booking.service.ts:154-172 | A creation adds exactly the requested car and days to the occupancy, under a fresh identifier, and leaves contracts and cars alone. |
| Conversion.ReschedulesExactlyWhen | src/services/booking.service.ts:205-248 | An update with a date is accepted exactly when the status move is valid and the merged dates are valid and free but for the booking itself; then those days are stored. |
| Conversion.MergedDates | src/services/booking.service.ts:207-235 | The dates an update works with are those sent, and midnight of the stored day for a date not sent. |
| Conversion.ConfirmsExactlyWhen | src/services/booking.service.ts:303-360 | Confirmation succeeds exactly for a pending, paid booking that is not past its deadline, and changes nothing but status and writer. |
| Conversion.CreatedBookingIsPriced | src/services/booking.service.ts:130-151 | The stored total is the days times the daily rate plus the sum of quantity times price; the default deposit is three tenths of it. |
| Conversion.RescheduledBookingIsPricedExactly | src/services/booking.service.ts:250-266 | An update that sets a date and finds the car stores the price of the merged dates with the extras sent, or the old ones if none or `null` were sent; that fits the stored row unless `null` drops extras that cost something. |
| Conversion.ExtrasOnlyUpdateStaysPricedExactly | src/services/booking.service.ts:199-206 | An update without dates keeps a priced booking priced exactly when the extras cost the same per day or there is no day to charge. |
| Conversion.CancelsExactlyWhen | src/services/booking.service.ts:371-395 | Cancelling takes a reason of ten characters between spaces and a pending, confirmed or expired booking, and writes status, time, reason and writer only. |
| Conversion.TrimIsTheCore | src/services/booking.service.ts:372-372 | The trimmed reason is the text without the spaces around it, and starts and ends with none. |
| Conversion.ExpiresExactlyWhen | src/services/booking.service.ts:603-619 | By hand any active booking is expired; in bulk and by the scheduler exactly the active ones past their deadline; the row each route leaves is stated. |
| Conversion.BulkExpiryIsComplete | src/services/booking.service.ts:478-546 | After a bulk expiry nothing is left to expire, and another one changes and reports nothing. |
| Conversion.CreatesContractExactlyWhen | src/services/contract.service.ts:20-45 | A contract is made exactly for a known customer and car, on days free as the query sees it, whatever the order of its dates. |
| Conversion.ChangesContractExactlyWhen | src/services/contract.service.ts:60-99 | A contract is changed exactly when the customer and car named are known and, if car or dates are named, the merged days are free of other contracts. |
| Conversion.DeleteUndoesCreate | src/common/repositories/base.repository.ts:74-85 | Deleting a booking just created gives all rows back; only its identifier is used up. |
| Conversion.UpdateIsIdempotentExactly | src/services/booking.service.ts:180-271 | An accepted update without a status is accepted again at once, and changes nothing more unless it sends `null` extras with a date and the old ones cost something. |
| Conversion.EndingReleasesItsDays | src/services/booking.service.ts:371-395 | Cancelling, expiring, converting or deleting a booking gives back exactly its own days, for every car and day. |
| Conversion.EndedDaysCanBeBooked | src/services/booking.service.ts:117-128 | A request refused because of one booking is accepted once that booking has been ended by any of those calls. |
| Conversion.ConfirmingMovesNoDays | src/services/booking.service.ts:303-360 | Confirmation leaves the occupancy of every car and day as it was. |
| Conversion.ReportIsTrueExactly | src/services/booking.service.ts:483-598 | The report of a bulk expiry agrees with the rows it changed exactly when search and reading back succeed or nothing was to expire; rows that cannot be read back are written and reported as failed. |
| StoredRows.CreatedRow | src/services/booking.service.ts:154-172 | The created row has the customer, car, days, locations, extras and notes asked for, the caller as author, the deadline, and nothing cancelled or converted; nothing else in the tables changes. |
| StoredRows.UpdatedRow | src/services/booking.service.ts:190-270 | After an update every column is as sent, cleared if sent as `null`, or as it was; customer, car, deadline, author, cancellation and conversion are never written. |
| StoredRows.DeletesExactly | src/common/repositories/base.repository.ts:74-91 | Deleting takes exactly that booking out of the tables. |
| StoredRows.CreatedContractRow | src/services/contract.service.ts:20-55 | A new contract has all columns as asked for, the caller as author, and occupies exactly its days. |
| StoredRows.ChangedContractRow | src/services/contract.service.ts:60-106 | A changed contract has every column as sent or as it was, no other row changes, and it occupies exactly the merged days instead of its old ones. |
| StoredRows.DropsExactly | src/common/repositories/base.repository.ts:74-91 | Deleting a contract takes that row out and gives back exactly its days. |
| StoredRows.ActiveContractsExactly | src/repositories/contract.repository.ts:35-46 | Today's active contracts are exactly those that cover today. |
| StoredRows.EventsDoAsNamed | src/services/booking.service.ts:91-619 | Every accepted event of a run does what its call is named for: the row it is about has the status, writer, reason or columns the call is to give it. |
| StoredRows.ContractNamesTheCustomer | src/services/booking.service.ts:436-450 | In any run, the contract a booking turns into names the customer and the car the booking was created with, whatever was updated in between. |
| StoredRows.CreateRefuses | src/services/booking.service.ts:91-128 | Which error refuses a booking, exactly, for each error; taken days are reported with the number of active bookings that hold one of them. |
| StoredRows.UpdateRefuses | src/services/booking.service.ts:180-239 | Which error refuses an update, the status before the dates. |
| StoredRows.ConfirmRefuses | src/services/booking.service.ts:303-330 | Which error refuses a confirmation, exactly. |
| StoredRows.ConvertRefuses | src/services/booking.service.ts:407-452 | Which error refuses a conversion; past its own guards it is the contract's. |
| StoredRows.CancelRefuses | src/services/booking.service.ts:371-388 | Which error refuses a cancellation, exactly. |
| StoredRows.ContractRefuses | src/services/contract.service.ts:20-45 | Which error refuses a contract, exactly. |
| StoredRows.ChangeRefuses | src/services/contract.service.ts:60-99 | Which error refuses the change of a contract, taken days before an unknown customer or car. |
| StoredRows.BlanksAreNoReason | src/services/booking.service.ts:372-374 | Blanks are trimmed from a reason, however many, and visible letters at its ends are not. |
| Rental.DaysAreTheCeiling | src/services/booking.service.ts:632-636 | The number of days is the least whole number of days that covers the span. |
| Rental.ValidDatesExactly | src/services/booking.service.ts:679-701 | Dates pass exactly when they start today or later and span more than 0 and at most 365 days; then there are 1 to 365 days. |
| Rental.SplittingCostsAtMostOneDay | src/services/booking.service.ts:632-636 | Splitting a rental at an instant inside it costs between 0 and 1 days more. |
| Rental.DeadlineIsTheSoonerLimit | src/services/booking.service.ts:667-674 | The deadline is the greatest instant respecting both limits, seven days from now and a day before the start. |
| Rental.ExtrasAddUp | src/services/booking.service.ts:134-142 | An extra more costs its quantity times its price per day. |
| Rental.TotalCostIsPerDay | src/services/booking.service.ts:130-142 | Rate and extras computed separately, with the left fold over the extras, equal days times the price of one day. |
| Services.BookingService.Create | src/services/booking.service.ts:91-175 | The object's `create` answers and leaves the tables exactly as the value-level call, and changes nothing when it refuses. |
| Services.BookingService.Update | src/services/booking.service.ts:180-271 | The object's `update` answers and leaves the tables exactly as the value-level call, and changes nothing when it refuses. |
| Services.BookingService.Confirm | src/services/booking.service.ts:303-360 | The object's `confirmBooking` answers and leaves the tables exactly as the value-level call, and changes nothing when it refuses. |
| Services.BookingService.Cancel | src/services/booking.service.ts:371-395 | The object's `cancelBooking` answers and leaves the tables exactly as the value-level call, and changes nothing when it refuses. |
| Services.BookingService.Convert | src/services/booking.service.ts:407-463 | The object's `convertToContract (two writes)` answers and leaves the tables exactly as the value-level call, and changes nothing when it refuses. |
| Services.BookingService.Expire | src/services/booking.service.ts:603-619 | The object's `expireBooking` answers and leaves the tables exactly as the value-level call, and changes nothing when it refuses. |
| Services.BookingService.Reschedule | src/services/booking.service.ts:205-267 | The branches for the two dates, their validation, availability and price, taken one after another, give the merged row or the first error. |
| Services.BookingService.PrepareUpdate | src/services/booking.service.ts:190-203 | The optional fields, copied one by one, give the merged row: what a request does not mention stays, what it sends as `null` is cleared. |
| Services.BookingService.CopyDetails | src/services/booking.service.ts:196-200 | The five optional columns, each kept, cleared or replaced as it is left out, sent as `null` or sent. |
| Services.Database.InsertBooking | src/common/repositories/base.repository.ts:60-63 | An insert adds one row under the next identifier and nothing else. |
| Services.Database.InsertContract | src/common/repositories/base.repository.ts:60-63 | The same for contracts. |
| Services.BookingService.ExpireAll | src/services/booking.service.ts:478-598 | Bulk expiry, with the search, the write or the reading back failing, leaves the tables and the report of the value-level call. |
| Services.BookingService.Delete | src/common/services/base.service.ts:145-153 | Deletion removes the row, or answers not found and changes nothing. |
| Services.ContractService.Create | src/services/contract.service.ts:20-55 | Contract creation answers and leaves the tables as the value-level call; rejected, it changes nothing. |
| Services.ContractService.Update | src/services/contract.service.ts:60-107 | Contract update with its availability recheck, likewise. |
| Services.ContractService.Delete | src/common/services/base.service.ts:145-153 | Contract deletion, likewise. |
| ExpiryTask.FirstSuccess | src/scripts/bookingScheduler.ts:309-323 | The attempt that ends a task: the first that does not throw, or the last one allowed. |
| ExpiryTask.SavesAreCounted | src/scripts/bookingScheduler.ts:235-337 | The saves counted are the attempts that get past the save. |
| ExpiryTask.SleepInClosedForm | src/scripts/bookingScheduler.ts:146-147 | The sleeps add up to delay times k(k+1)/2 between attempts and delay times (2^k - 1) between sends. |
| ExpiryTask.ConfiguredSleep | src/scripts/bookingScheduler.ts:75-79 | With the configured values a task sleeps at most 6 seconds between attempts and 7 between sends. |
| ExpiryTask.RetriesBackOffExactly | src/scripts/bookingScheduler.ts:321-322 | The sleeps between attempts add up to those of doubling exactly for at most two retries or no delay. |
| ExpiryTask.SucceedsExactlyWhen | src/scripts/bookingScheduler.ts:235-337 | A task reports success exactly when some attempt within the budget throws nothing; it leaves the booking unsaved exactly when every attempt throws before the save. |
| BookingScheduler.Scheduler.SendExpirationNotification | src/scripts/bookingScheduler.ts:94-162 | Sends until one gets through or the budget is used up, counting sends and sleep; the answer says which. |
| BookingScheduler.Scheduler.TryExpire | src/scripts/bookingScheduler.ts:236-308 | One attempt: save, count, give the car back, notify; what is stored and counted for each place it can throw, and no effect of a failed notification. |
| BookingScheduler.Scheduler.ExpireBooking | src/scripts/bookingScheduler.ts:235-337 | At most maxRetries + 1 attempts, one notification phase at most and never a new save because of it, exact saves and sleep; success means the booking is stored as expired and the car given back if nothing holds it. |
| BookingScheduler.Scheduler.ProcessExpiredBookings | src/scripts/bookingScheduler.ts:366-441 | The loop on the tables ends, as the list of expirable bookings shrinks, whenever every full batch that the run selects stores one of its bookings, with the totals of the list model; processed is succeeded plus failed, nothing succeeds twice, bookings only lapse, cars are only given back when nothing holds them, each car of a lapsed booking that nothing holds is available unless one of its own tasks failed after its save, and service calls could have led to the same tables. The oldest min(n, offset) expirable bookings stay, and nothing else if every task has an attempt that throws nothing. |
| BookingScheduler.Scheduler.ProcessRounds | src/scripts/bookingScheduler.ts:366-441 | The same totals, and the same about the tables, for any number of rounds and any failures, finished or not; the oldest min(n, offset) expirable bookings stay. |
| BookingScheduler.Scheduler.RunBatch | src/scripts/bookingScheduler.ts:404-431 | A batch stores exactly the bookings whose tasks get past their save, sorts them into succeeded and failed in order, and leaves both tables where its tasks, and so some service calls, take them. |
| BookingScheduler.Scheduler.RunTask | src/scripts/bookingScheduler.ts:404-414 | A task with all its retries leaves booking and car tables exactly as its outcome says, and reports it. |
| ExpiryQuery.QueryIsRight | src/scripts/bookingScheduler.ts:368-379 | The list computed from a listing by deadline is what the query promises: it passes over the `skip` oldest expirable bookings and gives the `take` oldest of the others in order of their deadlines. |
| BookingScheduler.Scheduler.FindExpirable | src/scripts/bookingScheduler.ts:368-379 | The selection of a round has exactly these properties on the table as it then is. |
| ExpiryQuery.OldestAreKept | src/scripts/bookingScheduler.ts:366-441 | After any number of rounds and any failures, the oldest min(n, offset) of the bookings first expirable are still expirable. |
| ExpiryQuery.OnlyTheOldestStay | src/scripts/bookingScheduler.ts:339-343 | When no task fails they are all that is left when the loop ends, so nothing left has a later deadline than anything expired. |
| BookingScheduler.GoingThroughStores | src/scripts/bookingScheduler.ts:404-440 | If every task has an attempt that throws nothing, every full batch stores its bookings, so the loop ends. |
| BookingScheduler.Scheduler.SelectAndExpire | src/scripts/bookingScheduler.ts:367-416 | Selecting with skip and take, the oldest bookings past the offset, and running the batch is the next state of the list model. |
| BookingScheduler.Scheduler.RunRound | src/scripts/bookingScheduler.ts:366-441 | One pass of the loop body with its totals is the next state of the list model, and shrinks the list if full batches store something. |
| BookingScheduler.BatchIsOneRound | src/scripts/bookingScheduler.ts:366-441 | A batch carried out on the tables is one round on the list: what was stored drops out of the next selection, in order. |
| BookingScheduler.AnyInterleavingIsTheBatch | src/scripts/bookingScheduler.ts:404-416 | In every interleaving of its tasks' steps a finished batch stores and reports exactly what the loop's batch does. |
| BookingScheduler.AnyInterleavingRestores | src/scripts/bookingScheduler.ts:404-416 | And every car of the batch of whose own tasks none fails after its save is available or still held. |
| BookingScheduler.AnyInterleavingLeavesTheCar | src/scripts/bookingScheduler.ts:404-416 | In every interleaving a car is left as the tasks one after another leave it, unless one of its own tasks fails after its save. |
| BookingScheduler.TaskIsAScheduledExpiry | src/scripts/bookingScheduler.ts:240-272 | A successful task changes the tables as the scheduled expiry among the calls of `Calendar` and `Lifecycle` does. |
| BookingScheduler.TaskIsARun | src/scripts/bookingScheduler.ts:235-337 | However a task ends, retries and failures after the save included, it changes the tables as a run of at most two calls does. |
| BookingScheduler.BatchIsARun | src/scripts/bookingScheduler.ts:404-416 | So does a whole batch with any outcomes. |
| BookingScheduler.JobContinuesTheRun | src/scripts/bookingScheduler.ts:366-441 | So a run followed by any part of the job is a run, and whatever is proved of all runs holds of it. |
| BookingScheduler.JobKeepsInv | src/scripts/bookingScheduler.ts:366-441 | Whatever the job has done by some moment, the tables keep the invariant against double booking. |
| BookingScheduler.OrderLasts | src/scripts/bookingScheduler.ts:374-376 | Expiring rewrites no deadline, so one listing by deadline serves every selection of the loop. |
| BookingScheduler.RevivesExactly | src/scripts/bookingScheduler.ts:265-270 | A scheduled expiry changes a car exactly when nothing else holds it and it is not available, archived or deleted included. |
| BookingScheduler.LastExpiryRestoresExactly | src/scripts/bookingScheduler.ts:255-292 | When the faults let the last booking of a car be stored, the car ends available exactly when it was before or some attempt throws nothing: if every attempt throws it is left. |
| ExpiryLoop.RunIsAccounted | src/scripts/bookingScheduler.ts:418-433 | For any failures, any offset and any number of rounds, processed is succeeded plus failed and no booking is reported as expired twice. |
| ExpiryLoop.ReportsExactly | src/scripts/bookingScheduler.ts:418-433 | For any failures, a booking is left exactly when no round stored it, reported as expired exactly when its task succeeded in some round, and as failed exactly when it failed in some. |
| ExpiryLoop.LastRoundLeaves | src/scripts/bookingScheduler.ts:366-441 | For any failures, a finished run leaves exactly the skipped bookings and those that its last round selected and could not store, in order. |
| ExpiryLoop.FinishedRun | src/scripts/bookingScheduler.ts:366-441 | When each booking ends the same way in every round, a finished run leaves exactly the skipped bookings and those that cannot be stored, and reports each good one past the offset once, oldest first. |
| ExpiryLoop.FinishesExactlyWhen | src/scripts/bookingScheduler.ts:366-441 | The loop ends if and only if, past the offset, fewer bookings than one batch can never be stored; with a bound on the rounds. |
| ExpiryLoop.StoringShrinks | src/scripts/bookingScheduler.ts:436-440 | The number of expirable bookings falls in every round that stores at least one. |
| ExpiryLoop.StoringRunEnds | src/scripts/bookingScheduler.ts:366-441 | If every full batch that the run selects stores one of its bookings, the loop ends within one round more than there are bookings. |
| ExpiryLoop.FullBatchesStoreExactly | src/scripts/bookingScheduler.ts:366-441 | For tasks that end the same way in every round, that is so exactly when fewer bookings than one batch past the offset can never be stored. |
| ExpiryLoop.UnsavedTasksAreAllowed | src/scripts/bookingScheduler.ts:366-441 | A concrete run with a task that ends unsaved in a full batch and again later, which ends. |
| ExpiryLoop.FailureFreeRun | src/scripts/bookingScheduler.ts:339-343 | Without failures exactly the oldest min(n, offset) stay and the rest are expired once each, so all are expired if and only if there is no offset or nothing to expire. |
| ExpiryLoop.TheCodeLeavesTheOldestBatch | src/scripts/bookingScheduler.ts:377-378 | With the code's offset the oldest batch is what stays. |
| ExpiryLoop.OneBatchIsNeverExpired | src/scripts/bookingScheduler.ts:377-391 | If at most one batch is expirable the loop processes nothing, whatever the tasks would do. |
| ExpiryBatch.CarsAreGivenBack | src/scripts/bookingScheduler.ts:404-416 | In every interleaving of a batch's steps, with retries, once all tasks on a car succeeded the car is available if nothing holds it and untouched otherwise. |
| ExpiryBatch.CarsAreNotGivenBackEarly | src/scripts/bookingScheduler.ts:257-270 | In every interleaving and with any failures, a car row that changed is held by nothing and only its status was set. |
| ExpiryBatch.TasksEndAsIfAlone | src/scripts/bookingScheduler.ts:404-416 | In every interleaving a finished task reports, and leaves its booking, as it would alone with the same faults. |
| ExpiryBatch.OtherBookingsAreUntouched | src/scripts/bookingScheduler.ts:404-416 | No interleaving touches a booking outside the batch. |
| ExpiryBatch.OtherCarsAreUntouched | src/scripts/bookingScheduler.ts:257-270 | No interleaving adds or removes a car, or changes one that no booking of the batch is about. |
| ExpiryBatch.EveryTaskFinishes | src/scripts/bookingScheduler.ts:309-337 | A task is done after at most six steps per attempt, whatever throws. |
| CostAnalytics.OneRecordMore | src/services/cost-analytics.service.ts:109-166 | A record more adds its cost, nothing if it has none, to the costs and to its own month, and to no other month. |
| CostAnalytics.EarlierIsByTime | src/services/cost-analytics.service.ts:258-261 | The months of rows and groups are ordered by time. |
| CostAnalytics.GroupIsGroupBy | src/services/cost-analytics.service.ts:135-178 | The grouped list has each month of the records once, ascending, with that month's total, and the same sum. |
| CostAnalytics.KeyInjective | src/services/cost-analytics.service.ts:214-215 | Two months share a map key only when they are the same month. |
| CostAnalytics.MonthRoundTrip | src/services/cost-analytics.service.ts:349-386 | A calendar month's name gives its number back. |
| CostAnalytics.AddServiceRecord | src/services/cost-analytics.service.ts:213-229 | One round of the first loop keeps the map exact: each month met has its row under its key, in insertion order. |
| CostAnalytics.AddInsuranceRecord | src/services/cost-analytics.service.ts:232-248 | One round of the second loop, likewise. |
| CostAnalytics.BreakdownIsOncePerMonth | src/services/cost-analytics.service.ts:135-178 | The database's monthly lists meet what the merge needs: one record per calendar month. |
| CostAnalytics.MergeMonthlyBreakdowns | src/services/cost-analytics.service.ts:206-255 | The map loops and the sort give one row per month of either list, strictly ascending, each with its service and insurance totals and their sum. |
| CostAnalytics.MergeIsUnique | src/services/cost-analytics.service.ts:206-255 | There is only one list of rows with those properties. |
| CostAnalytics.MergeConservesCosts | src/services/cost-analytics.service.ts:206-255 | The totals of the rows add up to all the records of both lists. |
| CostAnalytics.MergeConservesColumns | src/services/cost-analytics.service.ts:205-262 | The service column adds up to the service records, the insurance column to the insurance records, and every row to its total. |
| CostAnalytics.GenerateCategoryBreakdown | src/services/cost-analytics.service.ts:260-306 | The branches push the positive categories, in order, with their amounts and percentages. |
| CostAnalytics.CategoriesExactly | src/services/cost-analytics.service.ts:264-306 | Listed are exactly the positive kinds of cost, each under its own name with its amount and percentage. |
| CostAnalytics.AmountsAddUpExactlyWhen | src/services/cost-analytics.service.ts:260-306 | The category amounts add up to the whole exactly when no cost is negative or everything cancels. |
| CostAnalytics.PercentageIsNear | src/services/cost-analytics.service.ts:264-306 | A percentage is its share to the nearest whole number. |
| CostAnalytics.PercentagesAddUp | src/services/cost-analytics.service.ts:273-287 | For non-negative costs the rounded percentages add up to 100, or to 101 exactly when a share ends in a half. |
| CostAnalytics.AverageSpreadsTheTotal | src/services/cost-analytics.service.ts:311-324 | The monthly average is within half a cent of all costs over the number of months with a row, the yearly one of twelve times that. |
| CostAnalytics.ProjectionSpreadsTheLatest | src/services/cost-analytics.service.ts:329-344 | The projections are, to half a cent, the costs of the records of the latest three months that have any, per month and per twelve months. |
| CostAnalytics.CostPerDaySpreadsTheTotal | src/services/cost-analytics.service.ts:88-93 | The daily cost times the whole days since the oldest record is the total, and 0 without such days. |
| CostAnalytics.CostPerKmSpreadsTheTotal | src/services/cost-analytics.service.ts:84-85 | The cost per kilometre times the kilometres is the total, and 0 without mileage. |
| CostAnalytics.DaysAreFull | src/services/cost-analytics.service.ts:88-92 | The days costs are spread over are the full days since the oldest record. |
| CostAnalytics.HasDaysExactly | src/services/cost-analytics.service.ts:89-93 | There are such days exactly when some record is at least a day old. |
| CostAnalytics.CalculateCostAnalytics | src/services/cost-analytics.service.ts:48-104 | For all records, the totals, rows, categories, averages, projections and costs per kilometre and per day, each tied to the records: sums, rows and rates as the lemmas above state. |
| TopExpenses.FastEqualsNaive | src/services/cross-car-analytics.service.ts:69-85 | For every list of records the monthly rows add up to the per-car fold, and so do the categories exactly when neither sum is negative or both cancel. |
| TopExpenses.FoldCosts | src/services/cross-car-analytics.service.ts:70-77 | The left fold over the charges is their sum, missing costs counting as nothing. |
| TopExpenses.GetTopExpenses | src/services/cross-car-analytics.service.ts:45-110 | The loop, sort and slice give the most expensive cars of the exact per-car sums. |
| TopExpenses.SameCostPerKm | src/services/cross-car-analytics.service.ts:87-88 | The cost per kilometre is that of the car's own analytics, and is missing exactly without mileage. |
| TopExpenses.EntryAddsUp | src/services/cross-car-analytics.service.ts:69-106 | The columns of an entry are the totals of the car's own analytics, and one record more raises its own column and the total by its cost. |
| TopExpenses.TopIsTheExpensiveEnd | src/services/cross-car-analytics.service.ts:108-109 | The slice descends, nothing left out costs more than anything in it, no car is lost, and ties keep their order. |
| TopExpenses.CostsAreNotNegative | src/services/cross-car-analytics.service.ts:70-77 | Non-negative records fold to a non-negative sum, which is what the category amounts need. |
| MaintenanceAlerts.GenerateAlerts | src/services/maintenance-alert.service.ts:44-64 | The list holds exactly the alerts raised, at most one per concern, in the order of the concerns. |
| MaintenanceAlerts.ConcernsInOrder | src/services/maintenance-alert.service.ts:44-64 | The list has a service alert first, issues last, and registration before insurance. |
| MaintenanceAlerts.ServiceAlertsExactly | src/services/maintenance-alert.service.ts:77-132 | In kilometres since the latest service: overdue from 10,000, critical with 1 to 499 left, a warning with 500 to 1,999 left, and the figure shown is the kilometres left. |
| MaintenanceAlerts.DocumentAlertsExactly | src/services/maintenance-alert.service.ts:134-262 | In the time a document has left: expired a whole day ago, critical for up to 6 and a warning for 7 to 29 begun days, and the days shown are the begun days. |
| MaintenanceAlerts.IssueAlertsExactly | src/services/maintenance-alert.service.ts:264-294 | One or two open issues warn, three and more are critical, with their number. |
| MaintenanceAlerts.CriticalExactlyWhen | src/services/maintenance-alert.service.ts:44-64 | A car has a critical alert exactly when it was driven more than 9,500 km since its latest service, a document has at most 6 days left, or three issues are open. |
| MaintenanceAlerts.SummaryCountsEach | src/services/maintenance-alert.service.ts:69-75 | Every alert counts once, under its own urgency. |
| MaintenanceAlerts.SummaryAddsUp | src/services/maintenance-alert.service.ts:69-75 | Critical and warning counts make up the total. |
| MaintenanceAlerts.DaysRemainingIsTheCeiling | src/services/maintenance-alert.service.ts:156-158 | The days shown are the ceiling of the time left, also for the past. |
| FleetMaintenance.CheckService | src/services/cross-car-analytics.service.ts:171-188 | The service check sets its flags and counters exactly by what is found. |
| FleetMaintenance.CheckDocument | src/services/cross-car-analytics.service.ts:191-226 | The check of registration or insurance, likewise. |
| FleetMaintenance.CheckCar | src/services/cross-car-analytics.service.ts:158-241 | One pass of the loop adds one car to every counter it belongs to. |
| FleetMaintenance.GetMaintenanceSummary | src/services/cross-car-analytics.service.ts:115-244 | For any number of cars every counter of the loop counts what it is named for. |
| FleetMaintenance.Accounting | src/services/cross-car-analytics.service.ts:134-243 | Critical plus warning cars are the cars with a finding and at most all cars; the counters agree with each other; expired documents count cars exactly when no car has two. |
| FleetMaintenance.CriticalAlertsMakeCriticalCars | src/services/cross-car-analytics.service.ts:170-240 | Any critical alert about a car makes the fleet count it as critical, without any assumption on its records. |
| FleetMaintenance.ServiceBandsAgreeExactly | src/services/cross-car-analytics.service.ts:170-188 | The service bands of the fleet in kilometres; for driven cars they are exactly those of the alerts. |
| FleetMaintenance.CarsAreJudgedExactly | src/services/cross-car-analytics.service.ts:158-241 | A car is critical to the fleet exactly when it was driven more than 9,500 km since its service, a document has less than seven days or an issue is open; and has a finding exactly by the limits of 8,000 km and thirty days, or without any service. |
| FleetMaintenance.OverlooksExactlyWhen | src/services/cross-car-analytics.service.ts:190-226 | The fleet overlooks a car with alerts exactly when it was serviced, is not driven or has 2000 km to go, has no open issues, its documents are good for thirty days and one is missing. |
| FleetMaintenance.BandsDifferExactly | src/services/maintenance-alert.service.ts:154-199 | Whole days and instants judge a document differently exactly in the last day before a threshold: (6,7) or (29,30) days, and (-1,0) for expired. |
| Csv.RoundTripExactlyWhen | src/controllers/audit-log.controller.ts:224-260 | For every non-empty list of logs a reader with the quoting rules of section 2 of RFC 4180 gets header and all values back if and only if no field but a description holds a comma, quote or line break. |
| Csv.FileReadsExactlyWhen | src/controllers/audit-log.controller.ts:257-257 | Any table of raw and quoted cells reads back exactly when its raw cells need no quoting. |
| Csv.HeadersNameTheColumns | src/controllers/audit-log.controller.ts:227-255 | Each of the twelve header names stands over the property it names. |
| Csv.EmptyExactlyWhen | src/controllers/audit-log.controller.ts:225-225 | The export is empty exactly for no logs. |
| Csv.DurationReadsBack | src/controllers/audit-log.controller.ts:254-254 | The duration column is empty for none and for zero, and otherwise reads back as the number. |
| Csv.QuotedReadsBack | src/controllers/audit-log.controller.ts:250-250 | Any text with its quotes doubled and put in quotes reads back as itself. |
| Csv.UnquotedIsMisread | src/controllers/audit-log.controller.ts:242-254 | Text that needs quoting, written without, is never read as itself, whatever follows. |
| AuditObjects.SanitizeNode | src/services/audit-log.service.ts:52-69 | The copy and overwrite on objects in memory terminates on data without cycles; the result stands for the redacted data, every object in it is new and none is shared with the input, whose objects are all unchanged. |
| AuditObjects.SanitizeKey | src/services/audit-log.service.ts:57-66 | A key gets the marker, the redacted copy of what it referred to, or keeps its plain value. |
| AuditObjects.SanitizeSlot | src/services/audit-log.service.ts:52-53 | Plain values are returned as they are, objects as their redacted copy. |
| AuditObjects.SanitizeChanges | src/services/audit-log.service.ts:30-75 | Both sides are redacted into new objects, a falsy side is dropped, and the input is unchanged. |
| Redaction.SidesAreKeptExactly | src/services/audit-log.service.ts:71-74 | A side of a change is dropped exactly when it is missing, null, false, zero or empty text, and otherwise redacted. |
| Redaction.LowerUndoesUpper | src/services/audit-log.service.ts:58-58 | A key in capital letters is treated like the same key in small ones. |
| Redaction.SanitizedIsClean | src/services/audit-log.service.ts:52-69 | In the redacted value nothing but markers is under sensitive keys, at any depth. |
| Redaction.SecretsBecomeTheMarker | src/services/audit-log.service.ts:61-62 | At every depth, the value under a sensitive key becomes the marker. |
| Redaction.OutsideSecretsNothingChanges | src/services/audit-log.service.ts:57-66 | At every path without a sensitive key the shape, the keys and the plain values are unchanged. |
| Redaction.SanitizedAlikeExactlyWhen | src/services/audit-log.service.ts:52-69 | Two values are redacted alike if and only if they differ at most under sensitive keys. |
| Redaction.UnchangedExactlyWhenClean | src/services/audit-log.service.ts:52-69 | Redaction leaves a value alone if and only if nothing but markers is under its sensitive keys. |
| Redaction.Idempotent | src/services/audit-log.service.ts:52-69 | Redacting twice is redacting once. |
| Redaction.SensitiveExactlyWhen | src/services/audit-log.service.ts:36-61 | A key is sensitive exactly when its lowercase form contains one of the seven all-lowercase names of the list, non-ASCII letters included. |
| Redaction.IndicesAreNotSensitive | src/services/audit-log.service.ts:55-57 | Array indices are never sensitive. |
| Pagination.PagesMakeTheWhole | src/common/repositories/base.repository.ts:29-50 | All pages in order are the whole result, each row once. |
| Pagination.PageSizes | src/common/repositories/base.repository.ts:34-42 | Every page but the last is full, the last is not empty, later ones are empty. |
| Pagination.NumbersAreRight | src/common/repositories/base.repository.ts:34-49 | Both answers carry the number of all rows, the page asked for and the least number of pages that holds the rows. |
| Pagination.NeighboursExactlyWhen | src/common/dto/pagination.dto.ts:29-48 | `hasNext` holds exactly when the next page has rows; `hasPrevious` likewise up to one page past the last. |
| Counterexamples.BookedOverAContract | src/services/booking.service.ts:117-128 | A concrete car under contract is booked for the same days. |
| Counterexamples.ConfirmedWithoutDeposit | src/services/booking.service.ts:186-203 | A concrete raw status update confirms an unpaid booking. |
| Counterexamples.ConvertedWithoutContract | src/services/booking.service.ts:186-203 | A concrete raw status update converts a booking with no contract in the table. |
| Counterexamples.ExtrasForFree | src/services/booking.service.ts:199-206 | A concrete booking gets new extras at the old price. |
| Counterexamples.DroppedExtrasAreCharged | src/services/booking.service.ts:199-266 | A concrete booking loses its extras by `null`, sent with both dates, and is still charged for them. |
| Counterexamples.ExpiredBookingIsCancelled | src/services/booking.service.ts:379-392 | A concrete expired booking is cancelled. |
| Counterexamples.ExpiredRowsReportedAsFailed | src/services/booking.service.ts:503-581 | One row is expired, and reported as none expired and one failed. |
| Counterexamples.ThreeRetriesAreNotDoubled | src/scripts/bookingScheduler.ts:321-322 | Three retries at one second take six seconds; doubling would take seven. |
| Counterexamples.DeletedCarComesBack | src/scripts/bookingScheduler.ts:265-270 | A deleted car is available again after its last booking expires, and a booking for it is accepted. |
| Counterexamples.CarIsLeftOut | src/scripts/bookingScheduler.ts:255-335 | A concrete fault plan, all four attempts throwing after the save, leaves nothing to expire and the car archived. |
| Counterexamples.OrderDecidesAboutTheCar | src/scripts/bookingScheduler.ts:257-270 | Two tasks on a car, one failing after its save: the car is given back or not depending on which of them counts last. |
| Counterexamples.LonelyBookingStays | src/scripts/bookingScheduler.ts:377-391 | A single expired booking stays for ever. |
| Counterexamples.CommaInTheNameSpoilsTheExport | src/controllers/audit-log.controller.ts:242-254 | Any log whose user name holds a comma does not read back. |
| Counterexamples.ApiKeyIsNotRedacted | src/services/audit-log.service.ts:36-61 | The listed name `apiKey` does not make the key `apiKey` sensitive. |
| Counterexamples.PercentagesOver100 | src/services/cost-analytics.service.ts:273-287 | Costs of 1 and 199 are shown as 1 and 100 percent. |
| Counterexamples.UndocumentedCarIsFine | src/services/cross-car-analytics.service.ts:190-226 | A serviced car without documents has an alert of its own and no finding in the fleet. |
| Counterexamples.OneCarTwoExpiredDocuments | src/services/cross-car-analytics.service.ts:198-217 | One car with both documents expired makes two cars with expired documents. |

## Left out

- BookingScheduler.Scheduler.ProcessExpiredBookings: runs the tasks of a batch one after another; `AnyInterleavingIsTheBatch` and `AnyInterleavingLeavesTheCar` say when any other order of their steps comes to the same, batch by batch; a car with a task that fails after its save depends on the order (`Counterexamples.OrderDecidesAboutTheCar`). Runs with a full batch that stores nothing need not end and are covered by `ProcessRounds`, for any number of rounds.
- ExpiryLoop.FinishedRun: assumes that a booking's task ends the same way in every round, as do `FinishesExactlyWhen` and what follows from them; `ReportsExactly`, `LastRoundLeaves`, `RunIsAccounted` and `StoringRunEnds` do not.
- ExpiryQuery.IsDeadlineOrder: one fixed order of ties on `expiresAt` for a whole run; a database may break ties differently in each query.
- TopExpenses.GetTopExpenses: for limits of 0 and more; the controller lets 1 to 100 through. Identity fields of a car are its identifier.
- Pagination.NeighboursExactlyWhen: for pages and limits from 1 on, which is what the callers ask for.
- MaintenanceAlerts.GenerateAlerts: titles, messages and links of the alerts, and which of several records with the same date is the latest.
- AuditObjects.SanitizeNode: class instances such as dates, which the code spreads into plain objects, and cyclic data, on which it does not end.
- Races between two service calls (check, then insert, without a transaction), and a scheduler task saving over a service call's write: calls are atomic here.
- Floating point, decimals and `date` columns that drivers return as text (so an update with only one of the two dates meets a text where the code expects a date), time zones, calendars and daylight saving.
- Booking references and `generateBookingReference`, whose uniqueness breaks with deletions; `findWithFilters`, whose branches do not agree on one meaning.
- Column constraints: nullability (a photo is required on contracts), foreign keys, `null` sent for a column that does not allow it (deposit, status, contract fields), and the writer `'system'` of bulk updates, which is not an identifier; a failing statement is a parameter of `Services.BookingService.ExpireAll`. Booking and contract fields without effect on any decision.
- Notification texts, the admin notification, logging, audit entries, sockets, the cron expression.
- Routes, request validation, authentication, files, mail, caching, and the remaining queries and statistics (audit statistics, revenue sums), which would add easy members only.
