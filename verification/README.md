# Campus resource booking: a verified model

The system lets students book rooms, laboratories and equipment by the whole
hour on campus dates (UTC+7), lets staff review requests and run check-in, and
lets administrators change resources, closures and accounts. PostgreSQL holds
the tables; a NestJS backend runs the transactions; a Next.js frontend parses
the responses and refuses what it does not expect.

This project models that behaviour in Dafny and proves what the parts promise
each other:

- **One transition system.** `Bookings`, `Resources` and `Campus` define the rows,
  the constraints PostgreSQL checks, and every transaction as an atomic step with
  its events, the catalog's import and cleaning included. `CampusInvariants` and
  `CampusRuns` prove what every step and every run keeps, `BookingStories` what one
  transaction takes and another gives back. `Services` is the same as a class over mutable tables, whose
  `Valid()` is the whole invariant at the latest clock reading; `CatalogImport` and
  `LoadTestWrites` are its clients.
- **The same transactions, interleaved.** `Interleaving` splits them at their lock,
  read, check, write and commit points; `InterleavingSafety` proves the invariant
  for every schedule, `InterleavingResults` draws the conclusions, `InterleavingRuns`
  follows one booking, `OnTimeCheckIns` and `LateCheckIns` find when a check-in may commit,
  `InterleavingNotifications` which commits go unannounced, `InterleavingStorm` who wins
  a contended slot, and `InterleavingSerial` proves that an undisturbed transaction is
  its atomic step.
- **Every answer, case by case.** `BookingOutcomes` and `ResourceOutcomes` say, in terms of
  rows, hours and instants only, when each transaction gives which error and what exactly
  it writes and announces; `ViewOutcomes`, `ListOutcomes`, `SummaryOutcomes` and
  `DiscoveryOutcomes` do so for responses, queues, the summary, link parameters and the
  parsers.
- **Four answers to one question.** `Availability` has the discovery filter, the slot
  generator and the interval resolver; `Agreement` proves that they and `create`
  decide alike.
- **The administrator lock protocol.** `Users` is the service, `AdminLocks` its lock
  steps, `AdminLockResults` safety, freedom from deadlock and termination.
- **Two codebases, one language.** `FrontendBookings`, `Timeline`, `StaffQueues` and
  `Analytics` set the frontend's parsers against the backend's responses;
  `ReachableResponses` and `SummaryRefusal` do so for what runs and schedules reach.
- **Underneath.** `Arithmetic`, `Decimal`, `Calendar`, `CampusClock`, `WireText`,
  `Capacity`, `Tallies`, `CatalogDates`, `CheckInMigration`, `DiscoveryQuery`,
  `LoadTestSlots`.

`dafny verify dfyconfig.toml` checks everything.

## Conventions

- Dates are day numbers (day 0 is 1970-01-01), times whole hours, instants
  milliseconds. `Calendar`, `CampusClock` and `WireText` prove that the texts the code
  compares and parses stand for them.
- The clock is a parameter. Atomic commands read one value; interleaved
  transactions read the clock at their own steps, and it never goes back.
- What request validation guarantees is a type: `Hour`, `Weekdays`, `WrittenDate`,
  `Reason`, `CodeSeed`, `ImportRow`.
- Assumed of PostgreSQL at READ COMMITTED: row locks are held to the end of the
  transaction and return the latest committed row, each statement reads what is
  committed when it starts, constraints are checked at the write, and the exclusion check
  waits for an uncommitted update of a row in conflict.
- A constraint is read two-valued, as a predicate over one row or the table.

## Where the code falls short of a promise

Each is proved, together with the exact condition under which the promise holds.

- `FrontendBookings.StaffResponsesAccepted`: validation and the database count a
  rejection reason in code points, the staff parser in UTF-16 units. A reason of 300
  characters outside the basic plane is stored, and every staff page that shows it
  refuses the response (`LongReasonRefused`, `SchedulesAccepted`).
- `InterleavingResults.LateCommitOnMaintenance`: a check-in confirmed before the end and
  committed after it can land on a resource set to MAINTENANCE in between. "Checked in
  only on ACTIVE" holds over every schedule whose check-ins commit before the end
  (`OnTimeCheckIns.OnTimeCheckInsStayActive`), and others can make a commit break it
  exactly when the booking has ended by then (`LateCheckIns.BreaksExactlyWhenLate`).
- `CampusInvariants.NotificationsComplete`: creating a resource, importing the catalog
  and cleaning it change views and announce nothing. The condition is that of the
  change: a new id, code and ordered hours; other columns for a resource that no booking
  holds; a closure on an open and unbooked date of an ACTIVE resource; a listed code
  whose resource no booking names. Every other change of a view by a modelled
  transaction is announced, interleaved or not, as long as closure ids are drawn anew
  (`InterleavingNotifications.EveryStepNotifies`, `EveryCommitAnnounces`).
- `StaffQueues.EveryPageAccepted`: rows and total of a staff page come from two
  statements. A request that leaves the queue in between makes the frontend refuse the
  last page, one that joins it the last page that is not full (`ChangedTotalRefused`); a
  page is accepted exactly when both statements put as many rows on it.
- `Capacity.CapacityHours`: closures count only if the driver returns their dates as ISO
  texts (`IsoRowsClose`); with any other text they cost nothing (`OtherTextsCloseNothing`).
- `Analytics.SummaryAcceptedExactly`: a range with scheduled hours but no capacity is
  refused by the frontend; `SummaryRefusal.RefusedSummaryIsReachable` leads there from
  empty tables.
- `DiscoveryQuery.QueryRoundTrip`: the amenity is bounded before it is lower-cased, and
  lower case can be longer. A filter of 26 dotted capital Is is lost on the next link
  (`GrowingAmenityLost`); the round trip holds exactly when the lower-cased amenity fits.
- `CheckInMigration.HardensExactly`: the query that looks for incompatible rows does not
  list a code requested for a pending, rejected or cancelled booking, on which the new
  constraint then fails; the migration rolls back (`StrayRowFails`, `UpgradeFails`).
- `Calendar.DateCheckExact`: real dates of the years 0 to 99 are refused.

## Model

| member | source | states |
|---|---|---|
| `InterleavingSafety.EveryScheduleSound` | web-backend/src/resources/resources.service.ts:214-407 | every interleaving of the lock, read, check, write and commit points of all transactions, clock ticks and imports keeps the invariant: sound rows and resources, no live booking stranded, no double booking, exclusive locks, and what each open transaction has checked still true |
| `InterleavingSafety.StepKeepsInv` | web-backend/src/resources/resources.service.ts:423-464 | each single step of any transaction keeps that invariant, so no booking can slip in between a check and its write |
| `InterleavingResults.NoInterleavingBreaksTables` | web-backend/src/bookings/bookings.service.ts:41-80 | from sound tables, after any schedule: a pending, confirmed or checked-in booking that has not ended is on an ACTIVE resource and an open date, before check-in also inside the operating days and hours; rows meet every CHECK and no two blocking bookings overlap |
| `InterleavingResults.EveryScheduleInPlainTerms` | web-backend/src/bookings/bookings.service.ts:41-80 | after any schedule, bookings that hold a slot of one resource on one date share no hour, each that has not ended can take place on an ACTIVE resource and an open date and, before check-in, inside its days and hours, and the instants of each life are past and in order |
| `InterleavingResults.UpdatesNeverConflict` | web-backend/src/bookings/entities/booking.entity.ts:81-84 | only the insert of `create` can hit the exclusion constraint: a written but uncommitted update satisfies every CHECK and conflicts with no committed and no inserted row |
| `InterleavingResults.FailureEnds` | web-backend/src/bookings/bookings.service.ts:36-105 | in any state a step writes no table before its commit, and reports a failure exactly when it ends its transaction without being told to |
| `InterleavingResults.OverlapStands` | web-backend/src/bookings/bookings.service.ts:76-98 | a create is refused for an overlap only with a committed row that no open transaction has rewritten, so that no commit or rollback could have made room |
| `InterleavingResults.InactiveCheckInHasEnded` | web-backend/src/resources/resources.service.ts:269-281 | under any interleaving, late commits included, a booking checked in on a resource that is not ACTIVE has ended; with `OnTimeCheckInsStayActive` there is none when check-ins commit on time |
| `OnTimeCheckIns.OnTimeCheckInsStayActive` | web-backend/src/resources/resources.service.ts:269-281 | over every schedule whose check-ins commit before their booking ends, a checked-in booking is on an ACTIVE resource in the tables |
| `LateCheckIns.BreaksExactlyWhenLate` | web-backend/src/bookings/bookings.service.ts:299-330 | the exact condition: in every reachable state with all check-ins on time so far, whoever holds or has locked the resource, other transactions, on time themselves and without waiting, can make the commit of a check-in break "checked in only on ACTIVE" if and only if its booking has ended by then |
| `InterleavingResults.LateCommitOnMaintenance` | web-backend/src/bookings/bookings.service.ts:299-330 | the schedule by which "checked in only on ACTIVE" fails when the clock passes the end between the guard of `confirmCheckIn` and its commit, for every booking that alone holds its resource |
| `InterleavingSerial.AloneIsAtomic` | web-backend/src/bookings/bookings.service.ts:45-80 | run without interruption, the split steps of each transaction, import and cleaning leave the tables of the atomic form, end in the same failure and publish the same events in the same order |
| `CampusInvariants.ExecuteKeepsSound` | web-backend/src/resources/resources.service.ts:214-407 | every atomic command, the import included, keeps the invariant: also "checked in only on ACTIVE", even past the end, and unique resource codes |
| `CampusInvariants.SoundLater` | web-backend/src/resources/resources.service.ts:588-594 | the passing of time alone breaks nothing |
| `CampusRuns.EveryRunSound` | web-backend/src/bookings/bookings.service.ts:36-518 | over every run of atomic transactions under a clock that never goes back the invariant holds |
| `CampusRuns.BookingOverRun` | web-backend/src/bookings/bookings.service.ts:264-518 | over any run of atomic transactions and imports a booking keeps its resource, requester, date and hours, never takes a released slot back, and is updated at most four times |
| `InterleavingRuns.BookingOverSchedule` | web-backend/src/bookings/bookings.service.ts:264-518 | the same over every interleaving: the slot and requester stay, a released slot is never taken back, and at most four updates of the booking commit |
| `Bookings.AdvanceKeepsChecks` | web-backend/src/bookings/entities/booking.entity.ts:31-80 | with a clock that has not gone back no lifecycle command fails a CHECK constraint, and all timestamps stay in the past |
| `Bookings.AdvanceReleases` | web-backend/src/bookings/bookings.service.ts:291-294 | a successful command keeps the slot, never makes a row blocking or reviewable that was not, and strictly decreases the number of commands the row can still take |
| `Bookings.FlagsAreExact` | web-backend/src/bookings/bookings.service.ts:430-475 | each advertised action flag is true exactly when its command would succeed, for check-in with the stored code, although flags test `checkInRequestedAt` and the command `checkInCode` |
| `Bookings.FullVisit` | web-backend/src/bookings/bookings.service.ts:264-362 | approve, generate, confirm and check out compose to a completed booking that records exactly who did what when and keeps no code |
| `Bookings.OverlapOnOneDate` | web-backend/src/bookings/entities/booking.entity.ts:81-84 | overlap of the stored date-time ranges is overlap of whole hours on one date |
| `CampusInvariants.NotificationsComplete` | web-backend/src/events/availability-events.service.ts:8-21 | a command changes the view of a resource and date without an event for that pair or resource exactly when it creates that resource, when the import upserts it with other availability columns while no booking holds it, when the import closes an unheld, open date of an ACTIVE resource, or when cleaning the catalog deletes it, its code listed and no booking naming it; the condition is read off the tables before the command |
| `InterleavingNotifications.EveryStepNotifies` | web-backend/src/events/availability-events.service.ts:8-21 | after any schedule of the split transactions, a step changes a view without an event exactly when it is the commit of a stale deletion or an enabled creation, import or cleaning of that kind |
| `InterleavingNotifications.CommitNotifies` | web-backend/src/resources/resources.service.ts:385-407 | in every reachable state a commit changes a view without an event for it exactly when it deletes a closure that shows on another day than `deleteClosure` had read before taking the lock |
| `InterleavingNotifications.EveryCommitAnnounces` | web-backend/src/resources/resources.service.ts:385-407 | over every schedule in which closure ids are drawn anew, no deletion is stale and every commit announces each view it changes |
| `CampusInvariants.CreateResourceIsSilent` | web-backend/src/resources/resources.service.ts:188-212 | creating a resource publishes nothing although its view appears |
| `Services.CampusServices.Create` | web-backend/src/bookings/bookings.service.ts:36-105 | the booking insert over the tables does and publishes what its specification says, error cases included, and keeps the tables sound at the clock it read |
| `Services.CampusServices.Review` | web-backend/src/bookings/bookings.service.ts:477-518 | approval and rejection change, publish and fail as specified and keep the tables sound |
| `Services.CampusServices.GenerateCheckInCode` | web-backend/src/bookings/bookings.service.ts:264-297 | code generation changes and fails as specified and publishes nothing |
| `Services.CampusServices.ConfirmCode` | web-backend/src/bookings/bookings.service.ts:299-335 | check-in changes and fails as specified and publishes nothing |
| `Services.CampusServices.Complete` | web-backend/src/bookings/bookings.service.ts:337-362 | check-out changes, publishes and fails as specified |
| `Services.CampusServices.RecordNoShow` | web-backend/src/bookings/bookings.service.ts:364-394 | recording a no-show changes, publishes and fails as specified |
| `Services.CampusServices.CancelBooking` | web-backend/src/bookings/bookings.service.ts:396-428 | cancellation changes, publishes and fails as specified |
| `BookingOutcomes.RequestRefusals` | web-backend/src/bookings/bookings.service.ts:605-631 | the three errors about a request itself, each exactly when: the date is not one of the calendar from the year 100, the hours are not ordered, the start is not after now |
| `BookingOutcomes.CreateRefusals` | web-backend/src/bookings/bookings.service.ts:36-105 | which error `create` answers with, in every case and if and only if: about the request, no resource, a resource not serving the day and hours, a used id, an hour taken by a pending, confirmed or checked-in booking |
| `BookingOutcomes.CreateWrites` | web-backend/src/bookings/bookings.service.ts:56-94 | a success writes one row with the requester, the day, the hours, PENDING exactly under approval, created now and nothing else, and publishes the resource and day; a refusal writes and publishes nothing |
| `BookingOutcomes.ReviewOutcome` | web-backend/src/bookings/bookings.service.ts:477-518 | a pending request before its end is confirmed or rejected with the staff member, the time and, if rejected, the reason; from the end on the window has ended, and any other status is not pending |
| `BookingOutcomes.RequestCheckInOutcome` | web-backend/src/bookings/bookings.service.ts:264-297 | each refusal exactly when; a success stores six digits that read as the number drawn, with the time, and changes nothing else |
| `BookingOutcomes.ConfirmCheckInOutcome` | web-backend/src/bookings/bookings.service.ts:299-335 | refused exactly without a code asked for at the door or with another code; otherwise the code is spent and time and staff member are recorded |
| `BookingOutcomes.EndOutcomes` | web-backend/src/bookings/bookings.service.ts:337-428 | a checked-in booking is completed at any time, a confirmed one that has ended becomes a no-show without its code, and the requester's pending or confirmed booking without a code is cancelled before its start; each with time and person, and each with its error otherwise |
| `BookingOutcomes.ProgressWrites` | web-backend/src/bookings/bookings.service.ts:264-428 | a command writes its own row and announces the booking's day, but for the two check-in steps; a refusal writes and announces nothing |
| `Services.CampusServices.AddResource` | web-backend/src/resources/resources.service.ts:188-212 | resource creation applies the defaults, fails on hours and duplicate codes as specified and publishes nothing |
| `Services.CampusServices.DetailChanges` | web-backend/src/resources/resources.service.ts:486-510 | the property-by-property update of the availability columns is the specified change |
| `Services.CampusServices.Update` | web-backend/src/resources/resources.service.ts:214-260 | a resource update checks hours before bookings, looks for bookings outside the new schedule only when it changes, and publishes as specified |
| `Services.CampusServices.ChangeStatus` | web-backend/src/resources/resources.service.ts:262-292 | a status change fails on held bookings as specified and publishes |
| `Services.CampusServices.Close` | web-backend/src/resources/resources.service.ts:343-383 | closing a date fails on bad dates, held bookings and duplicates in that order and publishes |
| `Services.CampusServices.Reopen` | web-backend/src/resources/resources.service.ts:385-407 | deleting a closure by id removes exactly that closure and names its date in the event |
| `ResourceOutcomes.CreateResourceOutcome` | web-backend/src/resources/resources.service.ts:188-212 | errors exactly when, and a new resource is ACTIVE, opens Monday to Saturday from 8 to 18 and needs no approval where the draft says nothing |
| `ResourceOutcomes.UpdateOutcome` | web-backend/src/resources/resources.service.ts:214-260 | fails exactly for an unknown resource, hours that do not follow each other, or the number of bookings before check-in that have not ended and that a changed schedule would leave out; otherwise writes the named columns only and announces the resource |
| `ResourceOutcomes.UpdatedApprovalRules` | web-backend/src/resources/resources.service.ts:486-510 | over any run in which nothing writes the flag or inserts the resource again, a booking made after an update is PENDING exactly when the update asked for approval or, where it said nothing, the resource already did |
| `ResourceOutcomes.UpdateStatusOutcome` | web-backend/src/resources/resources.service.ts:262-292 | refused exactly for an unknown resource, or for a status other than ACTIVE while somebody is expected or still in, with their number; otherwise writes the status only |
| `ResourceOutcomes.CreateClosureOutcome` | web-backend/src/resources/resources.service.ts:343-383 | each error exactly when, with the number of live bookings that have not ended, and the exact closure and event of a success |
| `ResourceOutcomes.ClosesExactly` | web-backend/src/resources/resources.service.ts:343-383 | a date is closed if and only if it is one, the resource exists, it is not closed yet, the closure id is unused, and each blocking booking of the resource on it has ended |
| `ResourceOutcomes.DeleteClosureOutcome` | web-backend/src/resources/resources.service.ts:385-407 | deletes the one closure with that id on the resource and announces its day; unknown resource and closure exactly when |
| `CatalogImport.ImportCatalog` | web-backend/src/scripts/catalog-import.ts:49-162 | every entry is carried out unless bookings hold its resource or day; nothing else changes, rows keep their creation, and closures are added only as asked for; inserted and closures added are what the tables gained, and skipped are exactly the codes that bookings hold, in catalog order; the tables stay sound |
| `CatalogImport.UpsertResource` | web-backend/src/scripts/catalog-import.ts:77-137 | the upsert inserts, updates or skips exactly as the active bookings of the code's resource decide, publishes nothing, and keeps the tables sound |
| `CatalogImport.AddClosure` | web-backend/src/scripts/catalog-import.ts:145-159 | the guarded insert adds the closure exactly when the date is neither closed nor booked, publishes nothing, and keeps the tables sound |
| `ResourceOutcomes.ImportResourceOutcome` | web-backend/src/scripts/catalog-import.ts:77-137 | the upsert inserts with creation now, or writes the catalog's columns and keeps creation unless a pending, confirmed or checked-in booking names the resource |
| `ResourceOutcomes.ImportClosureOutcome` | web-backend/src/scripts/catalog-import.ts:145-159 | the guarded insert closes the date unless it is closed or a pending, confirmed or checked-in booking is on it, ended or not |
| `CatalogImport.CleanCatalog` | web-backend/src/scripts/catalog-import.ts:180-225 | the cleaning deletes exactly the listed resources that no booking ever named, with their closures, publishes nothing, reports removed and kept codes, and keeps the tables sound |
| `ResourceOutcomes.CleanOutcome` | web-backend/src/scripts/catalog-import.ts:180-225 | a resource goes exactly when its code is listed and no booking names it, and exactly its closures go with it |
| `CatalogImport.CleanUndoesImport` | web-backend/src/scripts/catalog-import.ts:180-225 | cleaning takes back the import of a new resource with any closures, restoring the tables, as long as nothing booked it |
| `BookingStories.CreateStoresRequest` | web-backend/src/bookings/bookings.service.ts:69-79 | a created row carries the requester, resource, date and hours asked for and can be approved exactly when the resource requires approval |
| `BookingStories.CreateTakesTheSlot` | web-backend/src/bookings/bookings.service.ts:81-97 | after a booking, and after any further run, no overlapping interval of its resource and date can be booked, by whomever and whenever, as long as the booking is pending, confirmed or checked in |
| `BookingStories.CancelUndoesCreate` | web-backend/src/bookings/bookings.service.ts:396-428 | cancelling at once succeeds and restores every view of every resource and date |
| `BookingStories.ReopenUndoesClose` | web-backend/src/resources/resources.service.ts:343-407 | deleting a closure just made by its id restores the tables and names the same date |
| `BookingStories.StatusRoundTrip` | web-backend/src/resources/resources.service.ts:262-292 | out of service nothing can be booked, and setting ACTIVE again restores the tables and announces the resource |
| `BookingStories.OutOfServiceStays` | web-backend/src/resources/resources.service.ts:262-292 | over any run in which nothing sets its status or inserts it again, a resource taken out of service cannot be booked, deleted or not |
| `BookingStories.UpdatedScheduleRules` | web-backend/src/resources/resources.service.ts:214-260 | over any run in which nothing writes the schedule or inserts the resource again, bookings must fit the days and hours an update named and, where it named none, the previous ones |
| `BookingStories.SlotsAreBookableHours` | web-backend/src/resources/dto/resource-availability-response.dto.ts:58-105 | the hours a view shows for a date are exactly the hours that `create` would accept one by one |
| `BookingStories.ReasonMeansRefusal` | web-backend/src/resources/dto/resource-availability-response.dto.ts:65-91 | for a coming, unbooked interval inside the opening hours, the response shows a reason exactly when `create` refuses it |
| `BookingStories.UnattendedVisit` | web-backend/src/bookings/bookings.service.ts:364-394 | approved, with a code, never checked in: a no-show is refused before the end and recorded from it on, without the code |
| `BookingStories.CodeEndsCancellation` | web-backend/src/bookings/bookings.service.ts:430-445 | an approved booking can be cancelled exactly until its start, and no longer once a code was generated |
| `BookingStories.EndedForGood` | web-backend/src/bookings/bookings.service.ts:264-518 | no command changes a completed, rejected, cancelled or no-show booking |
| `Agreement.FourWayAgreement` | web-backend/src/bookings/bookings.service.ts:605-653 | at one snapshot and one instant, for any date and whole-hour interval: `discover` lists the resource if and only if `create` succeeds, and the resolver reports the interval available if and only if `create` succeeds |
| `Agreement.ResolverIsBookable` | web-frontend/features/resources/slot-selection.ts:25-59 | an interval resolves as available over the response of its day exactly when the resource operates, is open and no blocking booking overlaps it |
| `Agreement.CreateIsBookable` | web-backend/src/bookings/bookings.service.ts:41-80 | `create` succeeds exactly when the resource operates, is open and no blocking booking overlaps the interval |
| `Agreement.UndisturbedByHours` | web-backend/src/resources/dto/resource-availability-response.dto.ts:94-102 | an interval is free of bookings exactly when each of its hours is |
| `Agreement.StartOnlySelectsHour` | web-frontend/features/resources/slot-selection.ts:32-37 | a start without an end selects that hour, available exactly when the one-hour interval is |
| `Availability.JoinsUpIsComplete` | web-frontend/features/resources/slot-selection.ts:47-56 | the resolver's test on the ends and joints of the covered slots says that every hour is there |
| `Availability.ResponseSlots` | web-backend/src/resources/dto/resource-availability-response.dto.ts:58-105 | the slots of a response are ascending hours and exactly the free future hours of an unblocked day |
| `Availability.ResolvesByHours` | web-frontend/features/resources/slot-selection.ts:39-58 | over any ascending slots a complete range inside operating hours is available exactly when each hour has a slot |
| `ViewOutcomes.SelectionShows` | web-frontend/features/resources/slot-selection.ts:25-59 | a lone start selects its hour while it is on offer, a range inside the hours is always selected and available while all its hours are on offer, anything else selects nothing |
| `Availability.GenerateHourlySlots` | web-backend/src/resources/dto/resource-availability-response.dto.ts:117-133 | the loop pushes exactly the hours from opening to closing |
| `Availability.FromResource` | web-backend/src/resources/dto/resource-availability-response.dto.ts:58-105 | the blocked reason is the first that applies, and only an unblocked day gets slots |
| `ViewOutcomes.ResponseShows` | web-backend/src/resources/dto/resource-availability-response.dto.ts:58-105 | a response shows the resource's own columns and the first of maintenance, inactivity, closure with its text, and weekday, each exactly when; a reason comes with no slots |
| `AdminLockResults.AnAdminStays` | web-backend/src/users/users.service.ts:224-252 | once there is an active administrator there is one after every schedule of role changes, status changes, registrations, bootstraps and rollbacks |
| `AdminLockResults.LastActiveAdminNeverRaised` | web-backend/src/users/users.service.ts:243-245 | whenever the last-administrator count runs, in any reachable state, it is at least two |
| `AdminLockResults.DeadlockFree` | web-backend/src/users/users.service.ts:70-118 | no schedule reaches a cycle of transactions that wait for each other, although managed updates take rows then the advisory lock and the bootstrap the other way round |
| `AdminLockResults.WaitingGoesUp` | web-backend/src/users/users.service.ts:215-242 | in a reachable state a transaction that waits for another waiting one has a lower rank |
| `AdminLockResults.AllTransactionsFinish` | web-backend/src/users/users.service.ts:70-118 | from any reachable state some order of unblocked steps, no longer than the work left, closes every open transaction |
| `AdminLockResults.ManagedAloneIsService` | web-backend/src/users/users.service.ts:215-252 | run without interruption, the lock steps of a managed update have exactly the effect of the service method |
| `AdminLockResults.ManagedAloneWrites` | web-backend/src/users/users.service.ts:215-252 | undisturbed, the lock steps leave the target with the requested role or activity and nothing else changed exactly when an active administrator manages somebody else; otherwise the table is as it was |
| `AdminLockResults.BootstrapAlone` | web-backend/src/users/users.service.ts:67-118 | undisturbed, the administrator bootstrap inserts an active administrator, promotes the registered account exactly when no active administrator is left, or changes nothing |
| `AdminLockResults.InsertionsWrite` | web-backend/src/users/users.service.ts:49-65 | registration and the staff bootstrap insert an active account of their role, unless id or email is taken |
| `AdminLocks.StepKeepsInv` | web-backend/src/users/users.service.ts:215-252 | each step keeps lock exclusion and what every transaction relies on, among it that a promoting bootstrap still finds no active administrator |
| `Users.RemovalFlagExact` | web-backend/src/users/users.service.ts:182-208 | the flag `removesActiveAdmin` is set exactly when the target stops being an active administrator |
| `Users.UsersService.UpdateManagedUser` | web-backend/src/users/users.service.ts:215-252 | succeeds exactly when an active administrator manages somebody else who has an account; each error exactly when; a success writes the target's row only, a refusal nothing, and an active administrator remains |
| `Users.UsersService.UpdateRole` | web-backend/src/users/users.service.ts:174-185 | on success the target's row has the requested role, with email and activity as before, and no other row changes |
| `Users.UsersService.UpdateStatus` | web-backend/src/users/users.service.ts:194-213 | on success the target's row has the requested activity, with email and role as before; a deactivation is published exactly when one was stored |
| `Users.UsersService.ProvisionBootstrapAccount` | web-backend/src/users/users.service.ts:70-118 | which of the six outcomes a boot has, what each changes, and that an administrator boot leaves an active administrator unless the account is missing without a password |
| `Calendar.DateCheckExact` | web-backend/src/resources/resources.service.ts:527-537 | the `Date.UTC` round trip accepts exactly the real dates outside the years 0 to 99 |
| `Calendar.DayFromYearFormula` | web-backend/src/resources/resources.service.ts:527-529 | the days the years add up to are those of the closed formula in ECMA-262 section 21.4.1, for every year |
| `Calendar.CivilRoundTrip` | web-backend/src/common/time/campus-clock.ts:21-24 | every day number has a real date that leads back to it |
| `Calendar.DayNumberOrder` | web-backend/src/resources/resources.service.ts:527-537 | day numbers order real dates as the calendar does, and only equal dates share one |
| `Calendar.WeekdayOfDate` | web-backend/src/resources/resources.service.ts:539-542 | the weekday of any real date is that of the congruence over years that start in March |
| `Calendar.DateTextRoundTrip` | web-backend/src/common/time/campus-clock.ts:21-24 | printing a real date of a four-digit year and parsing it again gives the date |
| `Calendar.DateTextOrder` | web-backend/src/analytics/analytics.service.ts:238-244 | comparing date texts compares day numbers |
| `Calendar.HourTextOrder` | web-backend/src/bookings/bookings.service.ts:617-622 | comparing whole-hour texts compares hours |
| `Calendar.AddDaysText` | web-backend/src/scripts/demo-catalog.ts:1005-1010 | adding days to the text of a day gives the text of the later day |
| `CampusClock.EndsAfterNowIsExact` | web-backend/src/resources/resources.service.ts:592-594 | the SQL predicate on the date and the minute-truncated time is exactly `now < end` for whole-hour ends |
| `CampusClock.CampusIsSevenAhead` | web-backend/src/common/time/campus-clock.ts:6-29 | campus day and minute are those of the instant, seven hours ahead of UTC |
| `CampusClock.CampusTextRoundTrip` | web-backend/src/common/time/campus-clock.ts:6-29 | the campus date and time of an instant read back as the start of its minute, exactly when the campus year has four digits |
| `CampusClock.HourTextInstant` | web-backend/src/common/time/campus-clock.ts:6-8 | a written whole hour of a day reads back as its instant |
| `CatalogDates.ClosureDayIsFirst` | web-backend/src/scripts/demo-catalog.ts:1012-1027 | with any weekday of 0 to 6 to operate on, the closure falls on the first operating day on or after its offset; with none, on its offset |
| `CatalogDates.ResolveClosureDate` | web-backend/src/scripts/demo-catalog.ts:1016-1027 | the loop over date texts returns the text of that day |
| `FrontendBookings.StudentResponsesAccepted` | web-frontend/features/bookings/schema.ts:161-224 | the student response for any sound row, its flags evaluated at any instant, is accepted by `parseStudentBooking` |
| `FrontendBookings.StaffResponsesAccepted` | web-frontend/features/bookings/schema.ts:347-408 | the staff response is accepted by `parseStaffBooking` if and only if the rejection reason, when there is one, has at most 500 UTF-16 units |
| `FrontendBookings.LongReasonRefused` | web-backend/src/bookings/dto/reject-booking.dto.ts:6-18 | every reviewable request can be rejected with a valid reason whose response the staff parser then refuses |
| `FrontendBookings.AcceptedRowsMeetConstraints` | web-frontend/features/bookings/schema.ts:137-248 | conversely a row whose two responses are accepted meets every constraint the responses show |
| `FrontendBookings.AcceptedStudentRow` | web-frontend/features/bookings/schema.ts:137-248 | an accepted student response alone vouches for hours, cancellation, rejection, code, visit and no-show constraints of its row |
| `FrontendBookings.AcceptedStaffRow` | web-frontend/features/bookings/schema.ts:320-433 | an accepted staff response alone vouches for hours, review, rejection, reason length, visit and no-show constraints of its row |
| `ViewOutcomes.StudentViewShows` | web-backend/src/bookings/dto/student-booking-response.dto.ts:102-129 | each column of the response is the stored one, and each flag says whether the requester's command would succeed at that instant |
| `ViewOutcomes.StaffViewShows` | web-backend/src/bookings/dto/staff-booking-response.dto.ts:86-121 | each column of the response is the stored one, and each flag says whether the staff command would succeed at that instant, a check-in with some code |
| `ViewOutcomes.StudentFlagRules` | web-frontend/features/bookings/schema.ts:161-248 | of a sound row, the student parser refuses exactly the flags that contradict its status or each other |
| `ViewOutcomes.StaffFlagRules` | web-frontend/features/bookings/schema.ts:347-433 | of a sound row, the staff parser refuses exactly a long reason and the flags that contradict its status or each other |
| `ReachableResponses.RunResponsesAccepted` | web-frontend/features/bookings/schema.ts:161-224 | after any run from sound tables, every student response is accepted, and a staff response exactly when its reason is short |
| `ReachableResponses.ScheduleResponsesAccepted` | web-frontend/features/bookings/schema.ts:347-408 | the same after any interleaving |
| `ReachableResponses.RunTableReadable` | web-backend/src/bookings/bookings.service.ts:145-230 | after any run under a clock of four-digit years the table meets what the theorems about staff pages ask of it |
| `Timeline.FindForStudent` | web-backend/src/bookings/bookings.service.ts:107-129 | the loop and the sort partition the rows, nothing lost or repeated, into the active ones and the others sorted descending |
| `Timeline.SortStable` | web-backend/src/bookings/bookings.service.ts:125-127 | bookings with the same start keep the order of the query |
| `Timeline.StudentTimelineAccepted` | web-frontend/features/bookings/schema.ts:266-302 | `parseStudentBookingTimeline` accepts the timeline made of any stored rows in query order |
| `ListOutcomes.TimelinesAccepted` | web-frontend/features/bookings/schema.ts:266-302 | over any sound rows, the timeline parser accepts exactly different bookings, those that hold their slot and have not ended by ascending start and all others by descending start |
| `StaffQueues.PendingQueueIsReviewable` | web-backend/src/bookings/bookings.service.ts:182-210 | the pending queue lists a request exactly when approving it at that instant would succeed |
| `StaffQueues.EveryPageAccepted` | web-frontend/features/bookings/schema.ts:459-484 | a page, past the end included, passes the count check of `parseStaffQueuePage` exactly when the later total leaves as many rows on it: total and rows agree, both end before the page, or both fill it |
| `StaffQueues.ChangedTotalRefused` | web-frontend/features/bookings/schema.ts:477-482 | one row less by the time of the count, and the last page is refused; one row more, and the last page is refused unless it was full |
| `StaffQueues.PagesConcatenate` | web-backend/src/common/dto/pagination-query.dto.ts:30-32 | the pages up to the last one concatenate to the whole queue |
| `StaffQueues.PendingPagesAccepted` | web-frontend/features/bookings/schema.ts:486-506 | `parseStaffBookingQueue` accepts a page of the pending queue exactly when the total, counted by a later statement, passes that check |
| `StaffQueues.OperationsPagesAccepted` | web-frontend/features/bookings/schema.ts:508-543 | `parseStaffOperationsQueue` accepts a page of the operations queue exactly when the total, counted by a later statement, passes that check |
| `StaffQueues.SchedulesAccepted` | web-frontend/features/bookings/schema.ts:545-575 | `parseStaffResourceSchedule` accepts a resource's day exactly when none of its rejection reasons is too long |
| `ViewOutcomes.OperationsQueueIsOpen` | web-backend/src/bookings/bookings.service.ts:145-175 | the operations queue lists a booking exactly when its campus date has begun and staff can still, at some instant, check it out or record that nobody came |
| `ViewOutcomes.ScheduleIsComplete` | web-backend/src/bookings/bookings.service.ts:219-230 | a resource's day lists each of its bookings on the date, whatever became of it |
| `ListOutcomes.PageChecks` | web-frontend/features/bookings/schema.ts:459-484 | any page information is accepted exactly when size and page are allowed, the total fills the stated pages and not one less, and the items fill the page, end with the total, or are none beyond it |
| `ListOutcomes.PendingListsAccepted` | web-frontend/features/bookings/schema.ts:486-506 | over any sound rows, exactly different pending requests that have not ended, oldest first, on an accepted page |
| `ListOutcomes.OperationsListsAccepted` | web-frontend/features/bookings/schema.ts:508-543 | over any sound rows, exactly different confirmed and checked-in bookings up to the campus date, by date, start and creation, on an accepted page |
| `ListOutcomes.ScheduleListsAccepted` | web-frontend/features/bookings/schema.ts:545-575 | over any sound rows, exactly different bookings of the resource and date with short reasons, by start and creation |
| `WireText.IsoInstantOrder` | web-frontend/features/bookings/schema.ts:441-450 | comparing ISO texts of instants, as the order checks do, compares the instants |
| `WireText.OperationsKeyOrder` | web-frontend/features/bookings/schema.ts:530-533 | the composed sort key orders bookings by date, start and creation |
| `WireText.RequestedDateIsWire` | web-backend/src/bookings/bookings.service.ts:605-616 | an accepted request date prints back as the text it came in |
| `Capacity.CapacityHours` | web-backend/src/analytics/analytics.service.ts:225-260 | the nested loop over the date generator ends and is daily hours times the open days since creation whose ISO text no closure row carries, summed over resources, whatever texts the driver returns |
| `Capacity.IsoRowsClose` | web-backend/src/analytics/analytics.service.ts:71-81 | a driver that returns a date as its ISO text closes exactly the closure days |
| `Capacity.OtherTextsCloseNothing` | web-backend/src/analytics/analytics.service.ts:231-233 | one that returns dates which print in any other way closes nothing |
| `Capacity.CapacitySplits` | web-backend/src/analytics/analytics.service.ts:225-260 | capacity is additive over splitting the range |
| `Capacity.ClosureCost` | web-backend/src/analytics/analytics.service.ts:241-247 | one more closure costs exactly that day's hours of its resource if the day was usable, else nothing |
| `Capacity.ClosuresOnlyCost` | web-backend/src/analytics/analytics.service.ts:231-233 | more closures never add capacity |
| `Tallies.StatusTotalIsAll` | web-backend/src/analytics/analytics.service.ts:83-89 | the status counts add up to the number of bookings in range |
| `Tallies.PeaksConserveHours` | web-backend/src/analytics/analytics.service.ts:181-199 | the peak-hour counts add up to the hours of the demand bookings |
| `Tallies.PopularConserveHours` | web-backend/src/analytics/analytics.service.ts:150-179 | the hours and counts of all popular rows before slicing are those of the demand bookings |
| `Tallies.PeaksMatchPopular` | web-backend/src/analytics/analytics.service.ts:150-199 | peak hours and popular resources account for the same hours |
| `Tallies.PeakHoursBounded` | web-frontend/features/analytics/schema.ts:66-73 | no reported hour is beyond 22 |
| `Analytics.GetSummary` | web-backend/src/analytics/analytics.service.ts:83-131 | the summary assembled step by step is the specified one, with the closures whose ISO text some row of the query carries |
| `Analytics.SummaryAcceptedExactly` | web-frontend/features/analytics/schema.ts:82-114 | over one snapshot, and for whatever texts the driver gives closure dates, the summary is accepted by `parseAnalyticsSummary` if and only if capacity is positive or nothing is scheduled |
| `Analytics.RefusedSummary` | web-frontend/features/analytics/schema.ts:88-88 | for any completed row on a weekday that has since left its resource's schedule, the answers of the queries and a summary of them that is refused |
| `SummaryOutcomes.SummaryCounts` | web-backend/src/analytics/analytics.service.ts:83-131 | total, cancelled and each status count are the numbers of bookings of the table in the range, and the popular resources shown are the first five |
| `SummaryOutcomes.SummaryFigures` | web-backend/src/analytics/analytics.service.ts:83-131 | the rates are the nearest tenths of a percent of their fractions, the utilisation rate is there exactly with capacity, and the peaks are those of the rows, labelled by their hour |
| `SummaryOutcomes.DemandIsTheRest` | web-backend/src/analytics/analytics.service.ts:12-27 | demand is every booking but the rejected and the cancelled |
| `SummaryOutcomes.ScheduledIsAttended` | web-backend/src/analytics/analytics.service.ts:201-223 | scheduled hours are the demanded hours of the active catalog without those of the no-shows |
| `SummaryOutcomes.HoursOfOne` | web-backend/src/analytics/analytics.service.ts:181-199 | a booking in demand counts once in each hour from its start up to its end, and in no other |
| `SummaryOutcomes.CapacityOfOneDay` | web-backend/src/analytics/analytics.service.ts:225-251 | one resource on one day gives its opening hours if it was created by the end of that day, operates on the weekday and is not closed, and nothing otherwise |
| `SummaryOutcomes.CapacityAdds` | web-backend/src/analytics/analytics.service.ts:225-251 | the capacity of resources is the sum of their capacities |
| `SummaryOutcomes.AcceptedFigures` | web-frontend/features/analytics/schema.ts:75-123 | status counts, hours and capacity determine every total and rate of a summary the parser lets through |
| `SummaryRefusal.RefusedSummaryIsReachable` | web-frontend/features/analytics/schema.ts:88-88 | such tables are reachable: on every day, six commands from empty tables (create a resource, book, generate, confirm, check out, drop the weekday) lead to sound tables whose summary of that day is refused |
| `CheckInMigration.HardensExactly` | web-backend/src/database/migrations/1726700000000-HardenCheckInLifecycle.ts:7-103 | a row that met the old constraints meets the new ones after the UPDATE if and only if the query does not list it and no code was requested for a pending, rejected or cancelled booking |
| `CheckInMigration.ForgetsTheCode` | web-backend/src/database/migrations/1726700000000-HardenCheckInLifecycle.ts:47-51 | the UPDATE of `up` changes no other column, and loses a code exactly once the visit was begun or missed |
| `CheckInMigration.StrayRowFails` | web-backend/src/database/migrations/1726700000000-HardenCheckInLifecycle.ts:7-103 | on every day there is a row that the old constraints allow, the query does not list, and the new constraints refuse after the UPDATE |
| `CheckInMigration.UpgradeFails` | web-backend/src/database/migrations/1726700000000-HardenCheckInLifecycle.ts:6-104 | on the table of that one row `up` ends in a constraint violation and changes nothing |
| `CheckInMigration.SoftensExactly` | web-backend/src/database/migrations/1726700000000-HardenCheckInLifecycle.ts:106-144 | a row that meets the new constraints meets the old ones if and only if the guard of `down` does not list it |
| `CheckInMigration.BookingsTable.Up` | web-backend/src/database/migrations/1726700000000-HardenCheckInLifecycle.ts:6-104 | when the upgrade succeeds, what it writes, what it reports, and that a failure changes nothing |
| `CheckInMigration.BookingsTable.Down` | web-backend/src/database/migrations/1726700000000-HardenCheckInLifecycle.ts:106-145 | the downgrade succeeds exactly when no code was consumed; past its guard the old constraints never fail |
| `CheckInMigration.UpThenDownRestores` | web-backend/src/database/migrations/1726700000000-HardenCheckInLifecycle.ts:47-51 | a downgrade let through right after an upgrade finds every row as it was |
| `DiscoveryQuery.QueryRoundTrip` | web-frontend/features/resources/discovery-query.ts:63-133 | for any parameters and any lower-casing with the stated properties, reading the printed filters again gives the filters without default sort and page 1 if and only if the lower-cased amenity still has at most 50 UTF-16 units; otherwise it loses the amenity and nothing else |
| `DiscoveryQuery.AsciiAmenityFits` | web-frontend/features/resources/discovery-query.ts:42-48 | with an ASCII amenity the round trip always holds |
| `DiscoveryQuery.GrowingAmenityLost` | web-frontend/features/resources/discovery-query.ts:70-70 | 26 to 50 dotted capital Is make an amenity that is lost on the next link |
| `DiscoveryQuery.PageOverrideReads` | web-frontend/features/resources/discovery-query.ts:108-133 | a link to another page reads back as the same filters on that page, with the exception of an amenity that outgrew its bound |
| `DiscoveryQuery.PageOverrideChangesPageOnly` | web-frontend/features/resources/discovery-query.ts:108-133 | a page override changes no other parameter |
| `DiscoveryQuery.NormalizedCanonical` | web-frontend/features/resources/discovery-query.ts:63-106 | what normalisation returns: trimmed bounded texts, known types and sorts, real dates and ordered hours, numbers in range |
| `DiscoveryOutcomes.TrimIsBetween` | web-frontend/features/resources/discovery-query.ts:42-48 | trimming finds the text between leading and trailing white space |
| `DiscoveryOutcomes.UuidGroups` | web-frontend/features/resources/discovery-query.ts:23-24 | of 36 characters, a UUID is five groups of 8, 4, 4, 4 and 12 hexadecimal digits with hyphens between them |
| `DiscoveryOutcomes.ParametersRead` | web-frontend/features/resources/discovery-query.ts:63-106 | each filter is the value of its own parameter, given once and within its bounds, and of no other |
| `DiscoveryOutcomes.IntervalRead` | web-frontend/features/resources/discovery-query.ts:63-106 | the interval is kept exactly when date and times are the texts of a day from the year 100 and of two ordered whole hours, and otherwise none of the three is |
| `DiscoveryQuery.NormalizeDiscoveryFilters` | web-frontend/features/resources/discovery-query.ts:63-106 | the property-by-property fill is the specified normal form |
| `DiscoveryQuery.DiscoverySearchParams` | web-frontend/features/resources/discovery-query.ts:108-133 | the parameter-by-parameter print gives exactly the specified entries |
| `Decimal.ValueOfPrint` | web-frontend/features/resources/discovery-query.ts:50-61 | parsing a printed number gives the number |
| `LoadTestSlots.SlotsNeverCollide` | web-backend/src/scripts/load-test.ts:251-267 | two different slot numbers never overlap on one resource and date |
| `LoadTestSlots.PlaceDecodes` | web-backend/src/scripts/load-test.ts:256-263 | the number is read back from its resource, day and hour |
| `LoadTestSlots.EveryPlaceIsTaken` | web-backend/src/scripts/load-test.ts:256-263 | every resource, day and hour of 7 to 21 is the place of some number |
| `LoadTestSlots.SlotHours` | web-backend/src/scripts/load-test.ts:260-264 | start hours are always 7 to 21 |
| `LoadTestWrites.BookSlots` | web-backend/src/scripts/load-test-runner.ts:637-657 | a client of many calls: every request of the write phase, each for the slot of its own number on resources open and unbooked from the first day on, is answered with a booking |
| `LoadTestWrites.Storm` | web-backend/src/scripts/load-test-runner.ts:661-692 | the same over the service class, one request after another: the first is answered with a booking, every other with BookingOverlap, and one row is added |
| `InterleavingStorm.StormInterleaved` | web-backend/src/scripts/load-test-runner.ts:661-692 | over every interleaving of any number of `create` transactions for one free slot: the first to end is answered with a booking and all others with BookingOverlap, the tables gain the winner's row and nothing else, and transactions opened are those answered plus those still open |

## Left out

- HTTP controllers, guards, request decorators, cookies, tokens, password hashing, sockets and React: wiring and foreign calls. Requests are taken as validated.
- TypeORM and SQL execution, indexes, three-valued NULL logic, ILIKE search and sort options: only the where clauses, orders and groupings named in the table are modelled.
- Columns that availability does not depend on (names, descriptions, buildings, capacity, amenities) and the errors about them; `update` changing a resource's code.
- The list of at most ten conflicting bookings that accompanies a refusal; the count is modelled.
- Whether the event server is up: an event stands for the call that publishes it.
- Randomness of ids and check-in codes: parameters, a code being any six digits.
- InterleavingSafety.EveryScheduleSound: the catalog import is interleaved one upsert and one closure at a time, each atomic behind its table lock; a deadlock between the import and `create`, which PostgreSQL breaks by aborting one, is not modelled.
- AdminLocks.StepKeepsInv: waits for an uncommitted insert of the same email, and the shared locks that foreign keys of bookings take on user rows, are not modelled.
- FrontendBookings.StudentResponsesAccepted: the resource summary of a response is taken as well formed, and timestamps as instants that their ISO texts give back.
- FrontendBookings.StaffResponsesAccepted: requester and reviewer are taken as well-formed people with a campus email, besides what is said of the student response.
- FrontendBookings.LongReasonRefused: request validation is taken to count code points, as PostgreSQL does. The pinned validator package appears not to count variation selectors, so a reason it lets through could also be too long for the column; that failure is not modelled.
- ReachableResponses.RunTableReadable: a clock reading outside the years 0 to 9999 is left out, as its ISO text has another shape.
- StaffQueues.PendingPagesAccepted: the rows of a page are taken from one statement; the ORM may load ids and rows separately.
- Timeline.FindForStudent: `localeCompare` on start texts is taken as code-unit order; all texts compared have one shape of digits and separators.
- Analytics.SummaryAcceptedExactly: percentages are exact fractions rounded to tenths; both sides use the same formula, and floating point is not modelled. Names and buildings of popular resources are left out.
- Capacity.CapacityHours: what the driver returns for the `date` column of the raw closure query is not part of this model (node-postgres by default builds a Date object, and the repository sets no type parser). The creation year is padded to four digits, where `Intl` prints it unpadded: the two differ for resources created before the year 1000. Dates outside four-digit years are left out, as is V8's acceptance of day 30 or 31 in short months, which request validation excludes.
- DiscoveryQuery.QueryRoundTrip: `toLowerCase` is any function that leaves lower-cased text alone, adds no space at the ends and keeps ASCII in ASCII and at its length. `URLSearchParams` is a map from keys to values.
- CatalogImport.ImportCatalog: buildings and catalog validation are left out; an entry is taken as validated.
- InterleavingStorm.StormInterleaved: no transaction of the burst is aborted from outside, and each insert draws an unused id.
- InterleavingNotifications.CommitNotifies: closure ids are parameters, so that a stale deletion is one whose id was used or asked for before it was drawn; the database draws each anew, which is the condition of `EveryCommitAnnounces`.
- Years outside the range of JavaScript dates.
- `cleanCatalog` deleting buildings that have no resources left: buildings are not modelled.
- `findForAdministration`, which searches and pages the user list for administrators.
- The availability benchmark, which times queries under index variants and summarises their plans, and the timing, percentiles and printed reports of the load test.
- `demo-data`, the benchmark and the load test also insert and delete their own demonstration rows past the services, and announce none of it.
