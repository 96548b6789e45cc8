# Nailio: a verified model

Nailio is a booking and billing back end for beauty masters. This project models its stateful core as
state machines over in-memory tables, together with the algorithms those machines rest on, and proves
what every step and every run of them keeps. Instants are integers in milliseconds.

| part | modules |
|---|---|
| Subscription billing: status, card, payments and a shared queue of delayed jobs found by id text | `JobIds`, `Billing`, `BillingSafety`, `BillingTheorems`, `BillingEffects`, `BillingRuns`, `Dunning`, `SubscriptionService` |
| Bookings: no double booking, contention, the slot lists | `Tables`, `Bookings`, `BookingsProofs`, `BookingsAnswers`, `BookingsService`, `Availability` |
| Slot schedule kept in free-form settings, and overrides of single dates | `Sorting`, `SlotTimes`, `Zones`, `Schedule`, `ScheduleProofs`, `ScheduleReading`, `Moves`, `DateOverride`, `OverrideAnswers`, `OverrideOverlap`, `ScheduleService` |
| Reminders: rows and jobs that follow the bookings | `Reminders`, `RemindersProofs`, `NoticeEffects`, `NotificationsService`, `NoticeLinks` |
| Daily statistics as a cache of direct counting | `Analytics`, `AnalyticsEffects` |
| Completing a booking under interleaved requests, one income row per booking | `Completion`, `CompletionEffects`, `CompletionLinks` |
| Slot editor, next free slot, free-slot runs, paging, slugs | `NextSlot`, `Draft`, `EditorEffects`, `Rebooking`, `EmptySlots`, `Paging`, `PagingTies`, `Slug`, `Numerals` |
| Shared facts | `Wrappers`, `Durations`, `Sets` |

Each part that the program writes as functions of its inputs is a set of functions and lemmas. Services
that update rows in place are classes: every method is proved to make exactly the step of the state
machine that the theorems are about. The modules named `...Effects`, `...Answers` and `...Reading` tell each
step and each answer in plain fields, literal lengths of time and literal texts, so that the step functions
are fixed by more than themselves.

## How to read the model

- Billing handlers, booking requests and overrides are atomic steps. Only `Completion` splits requests
  into a read and a later commit.
- A provider's answer to a charge is any of approved, declined or broken off with an exception. When
  several payment rows match a webhook, the database may answer with any of them: the event carries which.
- `renewals`, in a subscription, and the origin of an automatic payment row are history variables: the
  program does not store them.
- `cancel` and `checkout` first make sure the subscription row exists; the model does that as a
  registration step before.
- A zone is its offset from UTC as a function of the instant; the weekday of a date, the services, the
  clients, the cancellation window (after its default) and the slots a request sees are inputs that may differ from request to request.
- `localeCompare` on valid times and on date keys is taken as the order of their digits.
- `Paging` speaks of any row that has an id and an order column, so of bookings and transactions alike.
- Server days in `Analytics` start at multiples of a day, as on a server running in UTC.

## Where the code and its documentation differ, or the code falls short

- The file comment lists no arrow from cancelled to active; a late success webhook takes it
  (`BillingTheorems.StatusChangesAreLegal`).
- The comment on retries ends the grace period on day 7; the delays in the code add up to 144 hours, day 6 (`Dunning.DunningExpires`).
- The comment in `cancel` keeps the status active until the period ends; the code sets cancelled at once.
- A charge or retry that breaks off with an exception leaves no job behind, so billing stops there: the
  exact condition is `BillingTheorems.StepKeepsLiveUnlessBrokenOff`, a run `BillingRuns.StallReached`.
- `scheduleTrialJobs` is said to be called on registration and is called nowhere; both variants of
  registration are modelled. Without it no job ever ends a trial (`BillingRuns.TrialEndExact`).
- `aggregateDaily` is called nowhere either, so until it is the daily table stays empty and every figure
  is counted directly.
- Setting a cancelled booking to completed, restoring it in the bot and accepting a suggested time write an
  active row without looking at other bookings (`BookingsProofs.UncheckedStepExact`). The table constraint
  would refuse the overlap with a database error.
- So does a date override: it compares times of day, not durations (`OverrideOverlap.OverrideOverlapExact`,
  `OverrideOverlap.OverrideCanOverlap`). The table constraint refuses such a save too, and, as rows are written
  one by one, also saves that would end well: a swap of two times, or a move onto a booking cancelled in the
  same request (`OverrideOverlap.RowsAcceptedExact`, `OverrideOverlap.SwapIsRefused`).
- Statistics of a period that starts in the second half of a day miss what remains of that day when the daily
  table answers (`Analytics.AnyStartExact`). The dashboard only asks from a midnight.
- Cancelling through the general update, or by declining in the bot, leaves reminders queued; accepting
  in the bot keeps the old jobs (`RemindersProofs.QuietCancelExact`, `RemindersProofs.BotAcceptExact`).
- An expense booked before completion suppresses the income row (`Completion.IncomeExact`).
- The comment on no-show says confirmed bookings only; pending ones are accepted too.
- The effective slots of an override that is marked as a day off but has slots are those slots.
- The duplicate-weekday check of the weekly update and the joining branch of the sweep never run.
- Pages are ordered by a column that can have ties, which can lose a row or show it twice
  (`PagingTies.PagingExact`, `PagingTies.CompleteExact`).
- A slug made from a name with a blank at its end ends in a dash, and its numbered forms hold two in a row
  (`Slug.NumberedShape`).
- Interleaved requests can leave an end that does not fit start and duration, and an update that completes and
  changes the service books the old price (`Completion.StaleMoveReached`, `Completion.OldPriceReached`).
- A move read before a cancellation and committed after it brings the booking back, with its new time
  (`CompletionEffects.MoveUndoesCancel`).
- Rescheduling to another client asks whether the client is known, not whether it is blocked
  (`BookingsAnswers.RescheduleExact`).

## Model

| member | source | states |
|---|---|---|
| JobIds.JobIdDetermines | src/modules/subscription/subscription.service.ts:712-758 | Two jobs with the same id belong to the same tenant and are of the same sort. |
| JobIds.PatternsHitOwnJobsOnly | src/modules/subscription/subscription.service.ts:763-793 | The six id patterns match a job if and only if it is the tenant's own: cancelling misses none and hits no other tenant. |
| JobIds.AddKeepsFirst | src/modules/subscription/subscription.service.ts:712-758 | Under one id the queue keeps the job it has; a later one is not taken, and no other job is touched. |
| JobIds.OwnAfterAdd | src/modules/subscription/subscription.service.ts:712-758 | A job added under an id its tenant does not use is really added, and no other tenant's pending jobs change. |
| BillingTheorems.ReachableStatesLegal | src/modules/subscription/subscription.service.ts:183-600 | In every reachable state each tenant has at most one of trial-end, charge, retry and expire pending, its kind fits status and retry count, and past due implies a saved card. |
| BillingSafety.StepKeepsSafe | src/modules/subscription/subscription.service.ts:183-658 | Every webhook, firing, cancel, checkout and registration keeps that invariant and leaves all other tenants' subscriptions and jobs as they were. |
| BillingSafety.RunKeepsSafe | src/modules/subscription/subscription.service.ts:183-658 | The invariant holds after any finite run. |
| BillingTheorems.StatusChangesAreLegal | src/modules/subscription/subscription.service.ts:5-13 | Every status change is one of the documented arrows or cancelled to active, although the charge handler never tests the status. |
| BillingTheorems.RetryAlwaysHasCard | src/modules/subscription/subscription.service.ts:400-404 | A retry fires only for a past-due subscription with card and provider, so the branch without a card is never taken. |
| BillingTheorems.ExpiredHasNoBillingJob | src/modules/subscription/subscription.service.ts:494-540 | An expired subscription has no billing job pending. |
| BillingTheorems.StepKeepsLiveUnlessBrokenOff | src/modules/subscription/subscription.service.ts:286-488 | A step keeps "past due has a retry or expire pending, active with a card has a charge pending" if and only if it is not a charge or retry that breaks off with an exception. |
| BillingTheorems.ReachableStatesLive | src/modules/subscription/subscription.service.ts:286-488 | With handlers that run to their end, no reachable state leaves a past-due or card-paying tenant without its next job. |
| BillingRuns.StallReached | src/modules/subscription/subscription.service.ts:320-326 | A run from scratch that stalls: register, pay with a card, wait a month, the charge breaks off with an exception. |
| BillingRuns.TrialEndExact | src/modules/subscription/subscription.service.ts:633-708 | In every reachable state a tenant on trial has a job pending that ends the trial if and only if it was registered with the trial jobs; without them no job ever does. |
| BillingSafety.TrialJobsAdded | src/modules/subscription/subscription.service.ts:665-708 | The three trial jobs of a new tenant are really added, under three ids, and nobody else's jobs change. |
| BillingTheorems.WebhookOutcome | src/modules/subscription/subscription.service.ts:183-280 | For any webhooks in any order, repeated and mixed with everything else: a payment ends successful iff one success came, failed if only failures came, else unchanged. |
| BillingRuns.PaymentExtendsOnce | src/modules/subscription/subscription.service.ts:183-251 | Over any run, however often success is reported and whatever else happens, a payment extends a period exactly once if it was not successful before and a report came, else never. |
| BillingTheorems.RenewalsCountPayments | src/modules/subscription/subscription.service.ts:328-350 | Over whole runs each tenant's history counter of period extensions is the number of its successful payments; what one extension sets is `BillingEffects.PeriodExact`. |
| BillingEffects.PeriodExact | src/modules/subscription/subscription.service.ts:328-349 | In every step of a safe state a tenant's successful payments grow by at most one; if they grow, the period is now to thirty days from now, the tenant is active and its charge is due at that end; if not, it keeps the period it has. |
| BillingEffects.SubExact | src/modules/subscription/subscription.service.ts:183-600 | Every step changes status, card, provider, retry count and period of a tenant exactly as its paid success, approved or declined attempt, ending job or cancel says, and no other way. |
| BillingEffects.SuccessJobs | src/modules/subscription/subscription.service.ts:205-251 | A first success leaves the tenant one job, the charge thirty days from now. |
| BillingEffects.FiredJobs | src/modules/subscription/subscription.service.ts:286-540 | A job that runs is gone; a charge or retry that did not break off leaves its one follower: a charge after 30 days, retries after 24 and 48 hours, or the end of access after 72. |
| BillingEffects.CancelExact | src/modules/subscription/subscription.service.ts:547-600 | Cancelling an active tenant leaves exactly one job, the end of access at the period's end if that lies ahead; cancelling a trial none; else nothing changes. |
| BillingEffects.JobsOtherwiseKept | src/modules/subscription/subscription.service.ts:183-658 | No other step touches a tenant's pending jobs. |
| BillingEffects.StaleJobs | src/modules/subscription/subscription.service.ts:391-540 | A trial end, retry or end of access that finds the tenant in a status it is not for, and a charge without a card, change nothing but the queue they leave. |
| BillingEffects.RowsAdded | src/modules/subscription/subscription.service.ts:118-320 | A checkout of a tenant that is not active adds a pending payment row, an attempt one with its outcome and the provider's id, nothing else a row. |
| BillingEffects.RowsKept | src/modules/subscription/subscription.service.ts:183-280 | A success report settles its own row, a failure report its own if pending; no other row changes. |
| BillingEffects.RegistrationExact | src/modules/subscription/subscription.service.ts:633-660 | A new tenant comes only by registration: on trial if its trial ends in the future, else expired, without card or payment. |
| BillingEffects.RegisterTakes | src/modules/subscription/subscription.service.ts:633-640 | Registering enrols the tenant, and changes nothing the second time. |
| Dunning.DeclinedChargeStartsDunning | src/modules/subscription/subscription.service.ts:356-380 | A declined charge leaves the tenant past due at attempt 1 with the first retry due 24 hours later. |
| Dunning.FiringAdvances | src/modules/subscription/subscription.service.ts:461-540 | Each further declined firing moves the dunning phase by exactly one, the last one to expired. |
| Dunning.DunningRun | src/modules/subscription/subscription.service.ts:356-540 | With nothing going through, the number of the tenant's firings alone fixes its phase, whatever else happens; there are never more than three. |
| Dunning.NextFiringComes | src/modules/subscription/subscription.service.ts:461-540 | In every phase before the last, waiting until the next job is due lets it run, and running it leads to the next phase. |
| Dunning.DunningExpires | src/modules/subscription/subscription.service.ts:461-540 | The third firing expires the subscription, never before 144 hours after the failed charge and at exactly 144 when all fire on time. |
| SubscriptionService.SubscriptionService.CancelPendingJobs | src/modules/subscription/subscription.service.ts:763-793 | Looking jobs up by id and prefix leaves exactly the queue without the tenant's jobs. |
| SubscriptionService.SubscriptionService.RemoveByPrefix | src/modules/subscription/subscription.service.ts:775-793 | The loop over delayed jobs removes exactly those whose id starts with the prefix. |
| SubscriptionService.SubscriptionService.Schedule | src/modules/subscription/subscription.service.ts:712-758 | Adds a job under its id; an id already queued changes nothing. |
| SubscriptionService.SubscriptionService.FindPayment | src/modules/subscription/subscription.service.ts:190-196 | The look-up answers with a matching row, or none when there is none. |
| SubscriptionService.SubscriptionService.HandlePaymentSuccess | src/modules/subscription/subscription.service.ts:183-251 | The object makes the success step of the state machine. |
| SubscriptionService.SubscriptionService.HandlePaymentFailure | src/modules/subscription/subscription.service.ts:257-280 | Only a pending payment becomes failed; the subscription is not touched. |
| SubscriptionService.SubscriptionService.ProcessCharge | src/modules/subscription/subscription.service.ts:286-381 | The object makes the charge step for every provider outcome; what that sets is `BillingEffects.SubExact` and `FiredJobs`. |
| SubscriptionService.SubscriptionService.ProcessRetry | src/modules/subscription/subscription.service.ts:391-488 | The object makes the retry step, with the 24, 48 and 72 hour delays. |
| SubscriptionService.SubscriptionService.ProcessTrialEnd | src/modules/subscription/subscription.service.ts:494-513 | A trial expires and loses its card; any other status is left alone. |
| SubscriptionService.SubscriptionService.ProcessExpire | src/modules/subscription/subscription.service.ts:519-540 | Past due and cancelled expire and lose the card; any other status is left alone. |
| SubscriptionService.SubscriptionService.CancelSubscription | src/modules/subscription/subscription.service.ts:547-600 | Trial expires at once, active is cancelled with an expire job at the period end, anything else is refused. |
| SubscriptionService.SubscriptionService.EnsureSubscription | src/modules/subscription/subscription.service.ts:633-708 | Creates the missing row as trial or expired; an existing row is kept. |
| SubscriptionService.SubscriptionService.ScheduleTrialJobs | src/modules/subscription/subscription.service.ts:665-708 | Adds the trial-end check and the two reminders. |
| SubscriptionService.SubscriptionService.Checkout | src/modules/subscription/subscription.service.ts:118-177 | Adds a pending payment unless the subscription is active. |
| SubscriptionService.SubscriptionService.RunJob | src/modules/subscription/subscription.service.ts:286-540 | A due job leaves the queue and its handler makes the firing step of the state machine. |
| BookingsProofs.StepKeepsSound | src/modules/bookings/bookings.service.ts:136-864 | Every checked request keeps all non-cancelled bookings apart and every end at start plus duration. |
| BookingsProofs.RunKeepsSound | src/modules/bookings/bookings.service.ts:136-864 | So does every run of them, under any schedules, services and clients. |
| BookingsProofs.WriteExact | src/modules/bookings/bookings.service.ts:580-602 | Writing one row keeps the table free of overlaps if and only if the row is cancelled or its time is free of others. |
| BookingsProofs.UncheckedStepExact | src/modules/bookings/bookings.service.ts:555-566 | Reviving through an update, bot restore and bot accept keep the table sound if and only if the time they write is free. |
| BookingsProofs.RevivingCanOverlap | src/modules/bookings/bookings.service.ts:555-566 | A cancelled booking marked completed can double-book: a concrete table. |
| BookingsProofs.ConstraintIsNoOverlap | prisma/migrations/20260311000000_init/migration.sql:335-342 | For bookings with a duration the table constraint says exactly what the service's checks keep. |
| BookingsProofs.OneWinner | src/modules/bookings/bookings.service.ts:200-247 | Of any number of eligible requests for one start exactly one is served and all others get a conflict, if it is free for at least one; otherwise none is. |
| BookingsAnswers.CreateExact | src/modules/bookings/bookings.service.ts:136-247 | A booking is created if and only if the client is known and not blocked, the service offered, the start still to come and a slot of its local day, and no active booking meets the interval; and which refusal the first failing condition gives. |
| BookingsAnswers.CreateWrites | src/modules/bookings/bookings.service.ts:215-262 | The row carries the request's client, service and start, the service's length and price as they are now, and is pending. |
| BookingsAnswers.CancelExact | src/modules/bookings/bookings.service.ts:455-490 | The master may cancel anything there is; a client a pending or confirmed booking, not another known client's, up to the window before its start; and which refusal comes otherwise. |
| BookingsAnswers.CancelWrites | src/modules/bookings/bookings.service.ts:492-500 | Only the status changes. |
| BookingsAnswers.StatusRequestsExact | src/modules/bookings/bookings.service.ts:753-864 | Which statuses confirm, complete, no-show, restore and remove accept, and which refusal comes otherwise. |
| BookingsAnswers.StatusRequestsWrite | src/modules/bookings/bookings.service.ts:753-864 | What each of them writes. |
| BookingsAnswers.AcceptExact | src/modules/telegram/webhook.controller.ts:799-830 | Accepting a suggested time moves any booking there is to it, its length kept, and confirms it. |
| BookingsAnswers.UpdateExact | src/modules/bookings/bookings.service.ts:544-602 | An update is accepted if and only if the booking is there, a new status is completed or cancelled, and a new service is offered and at its length clear of the other bookings; and which refusal comes otherwise. |
| BookingsAnswers.UpdateWrites | src/modules/bookings/bookings.service.ts:569-617 | It keeps client and start; a new service brings its price and length and the end that goes with them. |
| BookingsAnswers.RescheduleExact | src/modules/bookings/bookings.service.ts:649-722 | A booking moves if and only if it is there, neither completed nor a no-show, the start a slot still to come and clear, and a new client known; that the client is blocked is not asked. |
| BookingsAnswers.RescheduleWrites | src/modules/bookings/bookings.service.ts:706-731 | It keeps service, price and length; a cancelled booking comes back confirmed. |
| BookingsAnswers.OthersKept | src/modules/bookings/bookings.service.ts:136-864 | A refused request changes nothing, an accepted one no other row. |
| BookingsAnswers.BlockedClients | src/modules/bookings/bookings.service.ts:158-160 | A blocked client is turned away whatever else holds, and nothing is written. |
| BookingsService.BookingsService.Create | src/modules/bookings/bookings.service.ts:136-282 | Answer and new table are those of the create step, which `BookingsAnswers.CreateExact` and `CreateWrites` state in full; soundness is kept. |
| BookingsService.BookingsService.Cancel | src/modules/bookings/bookings.service.ts:455-512 | Who may cancel what until when, and that only the status changes. |
| BookingsService.BookingsService.Confirm | src/modules/bookings/bookings.service.ts:845-864 | Pending becomes confirmed, anything else is refused. |
| BookingsService.BookingsService.Complete | src/modules/bookings/bookings.service.ts:753-808 | Pending or confirmed becomes completed, anything else is refused. |
| BookingsService.BookingsService.MarkNoShow | src/modules/bookings/bookings.service.ts:816-838 | Pending or confirmed becomes no-show, anything else is refused. |
| BookingsService.BookingsService.Remove | src/modules/bookings/bookings.service.ts:519-537 | The row goes, no other changes. |
| BookingsService.BookingsService.Update | src/modules/bookings/bookings.service.ts:544-641 | Status and service change as requested or the request is refused; sound unless it revives a cancelled booking. |
| BookingsService.BookingsService.Reschedule | src/modules/bookings/bookings.service.ts:649-745 | The booking moves, a cancelled one comes back confirmed, or the request is refused; soundness is kept. |
| Availability.SweepIsOverlapTest | src/modules/bookings/bookings.service.ts:888-921 | Over any list sorted by start the merging sweep is true if and only if some booking meets the slot. |
| Availability.SweepNeverMerges | src/modules/bookings/bookings.service.ts:905-907 | The branch that joins intervals never runs, whatever the list. |
| Availability.HasOverlappingInterval | src/modules/bookings/bookings.service.ts:888-921 | The loop returns true if and only if some booking meets the slot. |
| Availability.SlotListsAgree | src/modules/rebooking/rebooking.service.ts:1165-1200 | The available part of the booking service's list is, in order, the rebooking service's list, whatever order its bookings come in. |
| Availability.SlotListMatchesCreate | src/modules/bookings/bookings.service.ts:70-214 | On a regular day: an unlisted time is refused, a listed unavailable one conflicts, a listed available one is accepted iff no booking from outside the day's window reaches into it. |
| Availability.SlotListExact | src/modules/bookings/bookings.service.ts:70-131 | The list holds exactly the date's slots still to come, each with the local time its service ends, available if and only if no booking of the date meets it. |
| Availability.SlotListOrder | src/modules/bookings/bookings.service.ts:100-131 | They come in the order of the date's slots. |
| Zones.BuildThenFormat | src/common/utils/date-time.util.ts:1-21 | Formatting undoes building if and only if the offset is the same at the wall time read as UTC and at the built instant. |
| Zones.ClockChangeShiftsTime | src/common/utils/date-time.util.ts:1-12 | When the clocks change a built time can show as another. |
| Zones.RegularBuild | src/common/utils/date-time.util.ts:1-21 | On a day without a change of offset every time of day is built and formatted back. |
| Zones.LocalTimeExact | src/common/utils/date-time.util.ts:12-21 | The local date and time of an instant: its own offset, seconds dropped. |
| Zones.WindowExact | src/modules/schedule/schedule.service.ts:352-360 | The window of a date in milliseconds, from 00:00 to 23:59, each found with its own offset. |
| Zones.LocalTimeInDay | src/modules/schedule/schedule.service.ts:352-372 | Every instant in a regular day's window formats to that day, and its built time is the instant rounded down to the minute. |
| SlotTimes.TextOrderIsClockOrder | src/modules/schedule/schedule.service.ts:463-465 | On valid times the order of text is the order of the clock. |
| SlotTimes.NormalSlotsMeaning | src/modules/schedule/schedule.service.ts:450-461 | Normalising keeps exactly the valid times, each once, in clock order. |
| SlotTimes.NormalSlotsFixed | src/modules/schedule/schedule.service.ts:450-461 | A normal list is left as it is. |
| ScheduleProofs.EffectiveSlotsFromRaw | src/modules/schedule/schedule.service.ts:374-484 | For arbitrary JSON the slots of a date are the normalised slots of the first valid raw override for it, else of the last raw weekly entry for its weekday, else none. |
| ScheduleProofs.FirstForSorted | src/modules/schedule/schedule.service.ts:425-448 | Sorting the overrides by date keeps which one comes first for each date. |
| ScheduleProofs.ExtractIsNormal | src/modules/schedule/schedule.service.ts:374-448 | Whatever the settings hold, what is read is a seven-day week in order and valid overrides in date order, all slots normal. |
| ScheduleProofs.WeekRoundTrip | src/modules/schedule/schedule.service.ts:398-423 | A normal week stored as JSON reads back unchanged. |
| ScheduleProofs.StoreThenRead | src/modules/schedule/schedule.service.ts:374-396 | Any stored schedule reads back as its week and its overrides sorted, an override without slots being a day off. |
| ScheduleProofs.NormalRoundTrip | src/modules/schedule/schedule.service.ts:374-396 | A normal schedule reads back exactly as stored and every other settings key is kept. |
| ScheduleProofs.ExtractIdempotent | src/modules/schedule/schedule.service.ts:374-396 | Reading, storing and reading again gives the same schedule. |
| ScheduleProofs.DuplicateDayCheckIsDead | src/modules/schedule/schedule.service.ts:80-84 | The duplicate-weekday check never rejects: a normalised week has no duplicates. |
| ScheduleProofs.UpdatedHoursEffect | src/modules/schedule/schedule.service.ts:79-109 | New weekly hours reach exactly the dates without an override; all else is kept. |
| ScheduleProofs.DeletedOverrideReads | src/modules/schedule/schedule.service.ts:115-139 | Deleting reads back as the old schedule without every override of that id. |
| ScheduleReading.WeekdayExact | src/modules/schedule/schedule.service.ts:398-423 | A weekday is what the last raw entry with its number says: its valid times, and a day off if marked so by anything JavaScript takes for true or if it has none; without an entry it is a day off. |
| ScheduleReading.OverrideExact | src/modules/schedule/schedule.service.ts:425-448 | The override of a date is the first raw entry with that date as text of the right shape, with its own id or else the date; without one there is none. |
| ScheduleReading.EffectiveExact | src/modules/schedule/schedule.service.ts:467-484 | A date is what its override says if a raw entry is for it, else what its weekday says, else a day off. |
| ScheduleReading.OverridesInDateOrder | src/modules/schedule/schedule.service.ts:447-447 | The overrides read are in the text order of their dates. |
| DateOverride.SavedMeans | src/modules/schedule/schedule.service.ts:202-270 | Everything the checks of an accepted request establish. |
| OverrideAnswers.SavedExact | src/modules/schedule/schedule.service.ts:202-270 | A request is accepted if and only if the dates agree, every booking of the date is on an offered time, reassigned or named for cancelling, every target names a booking of the date and an offered time, and the targets differ from each other and from the times of the bookings not named. |
| OverrideAnswers.RefusedExact | src/modules/schedule/schedule.service.ts:202-270 | Otherwise the first failing check answers, in that order, and the bookings left open are exactly those reported. |
| OverrideAnswers.BadTargetExact | src/modules/schedule/schedule.service.ts:246-256 | The first bad target is reported, as a stranger or as no slot. |
| OverrideAnswers.TakenTargetExact | src/modules/schedule/schedule.service.ts:258-270 | The first target found taken is reported. |
| OverrideAnswers.DayOffExact | src/modules/schedule/schedule.service.ts:218-244 | A day off is accepted if and only if every booking of the date is named for cancelling, and leaves the date without bookings. |
| OverrideAnswers.DayOffReached | src/modules/schedule/schedule.service.ts:228-236 | One booking at nine, a day off that cancels it: accepted, and the booking is cancelled. |
| OverrideAnswers.RowExact | src/modules/schedule/schedule.service.ts:292-326 | After an accepted request each field of each booking: cancelled if of the date and named, moved to its last target with its length, else kept. |
| OverrideAnswers.DayViewExact | src/modules/schedule/schedule.service.ts:155-199 | The day view lists the slots and the booked times; each shows as booked if and only if an active booking of the date has it, as locked if and only if it is no slot. |
| DateOverride.TargetsOk | src/modules/schedule/schedule.service.ts:246-256 | No target is refused if and only if all name bookings of the date and slots of the new list. |
| DateOverride.FreeOk | src/modules/schedule/schedule.service.ts:258-270 | No target is occupied if and only if none is a retained time and all differ. |
| DateOverride.NewTableRow | src/modules/schedule/schedule.service.ts:280-326 | After an accepted request each row is moved to its last target, cancelled if asked, or untouched. |
| Moves.MovedTableRow | src/modules/schedule/schedule.service.ts:307-315 | Of several moves of a booking the last one decides, and no other booking moves. |
| DateOverride.OtherBookingsKept | src/modules/schedule/schedule.service.ts:292-326 | Bookings outside the date are unchanged. |
| DateOverride.BookingsOnSlots | src/modules/schedule/schedule.service.ts:201-350 | Every non-cancelled booking of a regular date then starts on one of the requested slots. |
| DateOverride.StartsStayDistinct | src/modules/schedule/schedule.service.ts:258-270 | Starts stay pairwise distinct. |
| DateOverride.FittingBookingsDoNotOverlap | src/modules/schedule/schedule.service.ts:280-290 | Bookings on their slots that each fit the gap to the next slot do not overlap. |
| DateOverride.TimesStayDistinct | src/modules/schedule/schedule.service.ts:258-270 | So do their times of day. |
| DateOverride.SavedDayDoesNotOverlap | src/modules/schedule/schedule.service.ts:201-350 | After an accepted request the date's bookings do not overlap, if their times differed before and each is over by the next requested slot. |
| OverrideOverlap.OverrideOverlapExact | src/modules/schedule/schedule.service.ts:201-325 | From a table without overlaps an accepted request leaves none if and only if every reassigned booking that stays lands clear of every other booking that stays, on any date. |
| OverrideOverlap.OverrideCanOverlap | src/modules/schedule/schedule.service.ts:258-270 | A two-hour booking sent to 11:00 runs into the one at 12:00 although every check passes. |
| OverrideOverlap.RowsAcceptedExact | src/modules/schedule/schedule.service.ts:296-327 | The rows are written one by one under the table constraint: all are accepted if and only if each move finds its time free of the other bookings as they stand by then, those still to be moved or cancelled included. |
| OverrideOverlap.SwapIsRefused | src/modules/schedule/schedule.service.ts:307-315 | Two bookings that change places pass every check and end up apart, but the first row written is refused. |
| DateOverride.SettingsReadBack | src/modules/schedule/schedule.service.ts:266-303 | The date reads back with exactly the requested normal slots; every other date and settings key is as before. |
| DateOverride.DeletingRestoresTemplate | src/modules/schedule/schedule.service.ts:115-139 | Deleting a saved override restores the weekday template. |
| DateOverride.NoLockedSlot | src/modules/schedule/schedule.service.ts:155-199 | After an accepted request the day view has no locked slot. |
| ScheduleService.ScheduleService.NormalizeDays | src/modules/schedule/schedule.service.ts:398-423 | The loop over an array of seven days computes the weekly normal form. |
| ScheduleService.ScheduleService.UpdateWorkingHours | src/modules/schedule/schedule.service.ts:79-109 | Always accepted; the settings become those with the new week. |
| ScheduleService.ScheduleService.DeleteOverride | src/modules/schedule/schedule.service.ts:115-139 | Found iff an override has the id; then it is removed, else nothing changes. |
| ScheduleService.ScheduleService.UpsertDateOverride | src/modules/schedule/schedule.service.ts:201-350 | The verdict of `OverrideAnswers.SavedExact` and `RefusedExact` is given; a refusal changes nothing, else settings and bookings are those of the override. |
| ScheduleService.ScheduleService.ValidateTargets | src/modules/schedule/schedule.service.ts:246-256 | The loop finds the first bad target. |
| ScheduleService.ScheduleService.ClaimTimes | src/modules/schedule/schedule.service.ts:258-270 | The loop over the growing set of occupied times finds the first clash. |
| ScheduleService.ScheduleService.ApplyMoves | src/modules/schedule/schedule.service.ts:307-315 | The loop applies the reassignments one after the other. |
| ScheduleService.ScheduleService.ApplyCancels | src/modules/schedule/schedule.service.ts:317-325 | The loop cancels exactly the named bookings. |
| RemindersProofs.StepKeepsOk | src/modules/notifications/notifications.service.ts:30-216 | Every create, reschedule, cancel, removal, change of status or service that does not cancel an active booking, date override, bot reject, bot restore, delivery and passing of time keeps each booking's reminders unique, due 24 hours or one hour before its current start, backed by a waiting row, absent once cancelled, and none missing that is still more than a minute ahead. |
| RemindersProofs.RunKeepsOk | src/modules/notifications/notifications.service.ts:30-216 | So does every run of them. |
| RemindersProofs.QueuedReminder | src/modules/notifications/notifications.service.ts:48-59 | What that says of one queued reminder in any state reached from scratch. |
| RemindersProofs.ReminderNotMissing | src/modules/notifications/notifications.service.ts:48-59 | A pending or confirmed booking has each reminder that is still more than a minute ahead in the queue, with the right due time. |
| RemindersProofs.OverrideOk | src/modules/schedule/schedule.service.ts:327-345 | An override that moves and cancels many bookings, some twice, ends with every booking's reminders right. |
| RemindersProofs.RescheduleView | src/modules/notifications/notifications.service.ts:96-119 | Rescheduling gives the booking exactly the reminders of its new start and leaves all other bookings' jobs alone. |
| RemindersProofs.CancelView | src/modules/notifications/notifications.service.ts:79-94 | Cancelling leaves the booking no reminder and all other bookings' jobs alone. |
| RemindersProofs.QuietCancelExact | src/modules/bookings/bookings.service.ts:555-566 | Cancelling without the notification service keeps the reminders right if and only if none was queued; the bot's decline does the same write. |
| RemindersProofs.QuietCancelBreaks | src/modules/bookings/bookings.service.ts:555-566 | It always does harm while the client is expected and one hour's notice is more than a minute ahead. |
| RemindersProofs.QuietCancelReached | src/modules/bookings/bookings.service.ts:555-566 | A run from scratch ends in such a state. |
| RemindersProofs.BotAcceptExact | src/modules/telegram/webhook.controller.ts:799-830 | Accepting a suggested time, which marks rows but keeps jobs, keeps the reminders right if and only if the booking had no job queued. |
| RemindersProofs.BotAcceptBreaks | src/modules/telegram/webhook.controller.ts:799-830 | It always does harm while one hour's notice for the old time is more than a minute ahead. |
| RemindersProofs.BotAcceptReached | src/modules/telegram/webhook.controller.ts:799-830 | A run from scratch ends in such a state. |
| NotificationsService.NotificationsService.AddNotificationJob | src/modules/notifications/notifications.service.ts:169-216 | Row and job of one notification under a new id. |
| NotificationsService.NotificationsService.CleanupPendingNotifications | src/modules/notifications/notifications.service.ts:121-163 | The loop removes exactly the jobs of the booking's waiting rows; the rows are marked if asked. |
| NotificationsService.NotificationsService.RemoveJobs | src/modules/notifications/notifications.service.ts:138-153 | The loop removes exactly the jobs of the given rows, gone already or not. |
| NotificationsService.NotificationsService.ScheduleBookingNotifications | src/modules/notifications/notifications.service.ts:30-62 | Confirmation, notice to the master for a client's booking, and the reminders more than a minute ahead. |
| NotificationsService.NotificationsService.ScheduleReminders | src/modules/notifications/notifications.service.ts:106-116 | The two reminders of a start. |
| NotificationsService.NotificationsService.CancelBookingNotifications | src/modules/notifications/notifications.service.ts:79-94 | Clean-up, then the two cancellation notices. |
| NotificationsService.NotificationsService.RescheduleBookingNotifications | src/modules/notifications/notifications.service.ts:96-119 | Clean-up, a notice, and the reminders of the new start. |
| NotificationsService.NotificationsService.SilentlyRemoveBookingJobs | src/modules/notifications/notifications.service.ts:68-70 | The jobs go, the rows stay as they are. |
| NoticeLinks.BookingStepIsNoticeStep | src/modules/bookings/bookings.service.ts:136-864 | Every accepted request of the booking model is an enabled step of the reminder model with the same resulting bookings. |
| NoticeLinks.SameGuards | src/modules/telegram/webhook.controller.ts:955-994 | The bot's restore and accept and the master's cancel and delete are possible in the same states in both models. |
| NoticeLinks.OverrideIsNoticeStep | src/modules/schedule/schedule.service.ts:274-345 | So is every accepted date override. |
| NoticeEffects.TellingSteps | src/modules/notifications/notifications.service.ts:30-119 | Creating, cancelling, declining, restoring and rescheduling add exactly their notices, in order, each with its kind and due instant: reminders a day and an hour before, if more than a minute ahead. Cancelling, declining and rescheduling first drop what waited. |
| NoticeEffects.AcceptExact | src/modules/telegram/webhook.controller.ts:799-830 | Accepting in the bot marks the waiting rows, leaves every job and announces the new time. |
| NoticeEffects.SilentSteps | src/modules/notifications/notifications.service.ts:64-77 | An edit, a deletion, a delivery and time passing add no notice; a deletion takes the booking's rows and waiting jobs. |
| NoticeEffects.OverrideExact | src/modules/schedule/schedule.service.ts:274-345 | An override first writes all bookings, then sends the notices of its moves and cancels. |
| NoticeEffects.MoveNoticesStep | src/modules/schedule/schedule.service.ts:329-336 | Each move drops what waited, sends one notice and queues the reminders of its target. |
| NoticeEffects.CancelNoticesStep | src/modules/schedule/schedule.service.ts:338-345 | Each cancel drops what waited and tells client and master. |
| Analytics.PeriodStatsExact | src/modules/analytics/analytics.service.ts:225-362 | Over any period from a midnight, reading through fresh day rows equals direct counting, except that the total also holds the cancelled bookings of the days the table answered for; what direct counting counts is `AnalyticsEffects.InsertInDirect`. |
| Analytics.AnyStartExact | src/modules/analytics/analytics.service.ts:225-287 | Over a period that starts at any instant before today: from twelve hours or more before a midnight the table never answers; later in the day it answers if and only if every whole day has a row, and what remains of the first day is then missing from every figure. |
| Analytics.AggregatedExact | src/modules/analytics/analytics.service.ts:242-287 | The stored sums answer if and only if every day has a row, and are then the direct figures with cancelled bookings in the total. |
| Analytics.CoverageMeansEveryDay | src/modules/analytics/analytics.service.ts:252-262 | The row count reaches the number of days if and only if every day has a row. |
| Analytics.QuerySplits | src/modules/analytics/analytics.service.ts:349-358 | Figures of adjoining periods add up. |
| Analytics.TotalsDifferByCancelled | src/modules/analytics/analytics.service.ts:150-153 | Counting every status adds exactly the cancelled bookings. |
| Analytics.DashboardReadsToday | src/modules/analytics/analytics.service.ts:28-31 | The dashboard's period ends at the coming midnight, so today too comes from the table when it can. |
| Analytics.StepKeepsFresh | src/modules/analytics/analytics.service.ts:146-214 | A change that does not touch a day leaves its row as fresh as it was. |
| Analytics.FreshSinceAggregation | src/modules/analytics/analytics.service.ts:146-214 | A day is fresh from its aggregation on through any run that leaves the day alone. |
| AnalyticsEffects.NothingCounted | src/modules/analytics/analytics.service.ts:146-214 | Without rows every figure is zero. |
| AnalyticsEffects.InsertInDirect | src/modules/analytics/analytics.service.ts:294-347 | One more booking raises the direct figures by exactly its own: the total unless cancelled, the counter of its status, its price as revenue if and only if completed; outside the period nothing. |
| AnalyticsEffects.InsertInDay | src/modules/analytics/analytics.service.ts:146-190 | The figures stored for a day rise likewise, but with every status in the total. |
| AnalyticsEffects.JoinInFigures | src/modules/analytics/analytics.service.ts:183-190 | A new client counts once, in the period of its creation. |
| AnalyticsEffects.NightlyExact | src/modules/analytics/analytics.service.ts:192-214 | The nightly job writes its day's figures and changes nothing else. |
| AnalyticsEffects.ChangeIsSwap | src/modules/analytics/analytics.service.ts:294-347 | Changing a row is taking it out and putting the new one in, for every figure. |
| Analytics.AnalyticsService.AggregateDaily | src/modules/analytics/analytics.service.ts:146-219 | Writes the day's row, replacing an old one, and leaves every other day's row alone; the figures are those of `AnalyticsEffects.InsertInDay`. |
| Completion.EveryInterleavingGood | src/modules/bookings/bookings.service.ts:605-803 | In every interleaving of reads and commits from scratch every completed booking has a payment row, no booking gets two automatic ones, and no two rows of a booking are of one kind. |
| CompletionEffects.CompleteCommitExact | src/modules/bookings/bookings.service.ts:767-803 | Completing commits if and only if the booking as it stands then exists and is pending or confirmed: its status changes and it gets an income row unless it has a payment row; else bookings and payment rows stay as they were. |
| CompletionEffects.PaymentsOnlyByCompleting | src/modules/bookings/bookings.service.ts:605-803 | Money is booked by no other commit than one that completes, and no commit takes any away. |
| CompletionEffects.CommitTouchesOne | src/modules/bookings/bookings.service.ts:455-864 | A commit touches no other booking, and only completing looks at the row again. |
| CompletionEffects.WrittenExact | src/modules/bookings/bookings.service.ts:569-731 | Every field of the row a commit writes, from what is asked, what was read and what is found. |
| CompletionEffects.ReadExact | src/modules/bookings/bookings.service.ts:455-864 | Which bookings each request may start on. |
| CompletionEffects.RemoveExact | src/modules/bookings/bookings.service.ts:519-537 | Deleting a booking takes only the link off its payment rows. |
| CompletionEffects.CancelBeatsCompletion | src/modules/bookings/bookings.service.ts:767-779 | A run from scratch: a booking cancelled between the read and the commit of its completion stays cancelled, without a payment row. |
| CompletionEffects.MoveUndoesCancel | src/modules/bookings/bookings.service.ts:649-731 | A run from scratch: a move read before a cancellation and committed after it brings the booking back. |
| Completion.StepKeepsGood | src/modules/bookings/bookings.service.ts:455-864 | Every read, commit, abort, deletion, creation and manual or online payment keeps that. |
| Completion.RunKeepsGood | src/modules/bookings/bookings.service.ts:455-864 | So does every run, from any state where it holds. |
| Completion.IncomeGood | src/modules/finance/finance.service.ts:174-227 | Booking the automatic row keeps the unique index satisfied without its help, so its error branch is not needed when commits are atomic. |
| Completion.IncomeExact | src/modules/finance/finance.service.ts:184-191 | A completing commit leaves an income row if and only if the booking had one or had no row at all. |
| Completion.ExpenseBlocksIncome | src/modules/finance/finance.service.ts:184-191 | An expense booked first leaves a completed booking without income: a concrete run. |
| Completion.AmountExact | src/modules/bookings/bookings.service.ts:619-633 | The amount booked is the price read before the commit; it is the price kept if and only if the commit and others have not changed it. |
| Completion.OldPriceReached | src/modules/bookings/bookings.service.ts:573-633 | A run from scratch: completing and changing the service in one update books the old price. |
| Completion.StaleWriteExact | src/modules/bookings/bookings.service.ts:605-617 | A commit leaves end at start plus duration if and only if the start or duration it relies on has not moved since it was read. |
| Completion.StaleMoveReached | src/modules/bookings/bookings.service.ts:649-731 | A run from scratch: a move read before and committed after a service change leaves an end that is not start plus duration. |
| CompletionLinks.AtomicCommitIsBookingStep | src/modules/bookings/bookings.service.ts:455-864 | A request that commits what it has just read is accepted and writes exactly what the atomic booking step writes. |
| Completion.FinanceService.CreateBookingTransaction | src/modules/finance/finance.service.ts:174-227 | Adds the income row unless the booking has a payment row of any kind. |
| Completion.FinanceService.CommitCompletion | src/modules/bookings/bookings.service.ts:767-803 | The completing commit of the state machine, whose effect `CompletionEffects.CompleteCommitExact` states in full. |
| NextSlot.TrimExact | frontend/src/lib/schedule.ts:17-39 | Trimming takes the white space off both ends of a text and leaves all that is between. |
| NextSlot.EditorNormalForm | frontend/src/lib/schedule.ts:35-39 | The editor's normal form is the server's of the trimmed texts: the valid times, each once, in order. |
| NextSlot.GetNextSlotTime | frontend/src/lib/schedule.ts:41-60 | The loop returns the first free candidate within its attempts, else the fallback. |
| NextSlot.CandidateCount | frontend/src/lib/schedule.ts:48-57 | As many candidates as steps fit in a day are pairwise different after wrapping at midnight. |
| NextSlot.SearchFinds | frontend/src/lib/schedule.ts:51-59 | The search gives an unused candidate unless all are used, then the fallback. |
| NextSlot.NextIsFree | frontend/src/lib/schedule.ts:41-60 | With fewer times in use than steps fit in a day, the result is a valid time not in use. |
| EditorEffects.NextExact | frontend/src/lib/schedule.ts:41-60 | The time offered is the first free one of the steps behind the latest valid time, once round the clock; the fallback if there is no valid time or all those are in use. |
| NextSlot.AddingRaisesCount | frontend/src/lib/schedule.ts:35-39 | A free valid time raises the number of normal slots by one. |
| NextSlot.NextRaisesCount | frontend/src/lib/schedule.ts:41-60 | Adding the next slot raises the number of normal slots by exactly one. |
| Draft.SerializedIsStable | frontend/src/hooks/useWeeklyScheduleDraft.ts:9-106 | After any edits from an empty or server-sent week the saved list is seven days in order, off exactly when without slots, and the server's normaliser leaves it unchanged. |
| Draft.SavedIsReadBack | frontend/src/hooks/useWeeklyScheduleDraft.ts:95-106 | What is saved is what is read back, and the overrides stay. |
| Draft.OtherDaysKept | frontend/src/hooks/useWeeklyScheduleDraft.ts:16-20 | An edit changes the saved form of its own day only. |
| Draft.AddSlotAdds | frontend/src/hooks/useWeeklyScheduleDraft.ts:39-48 | Adding a slot raises the saved slots of the day by one while fewer than 48 are in use. |
| EditorEffects.SavedExact | frontend/src/hooks/useWeeklyScheduleDraft.ts:95-106 | A day is saved with its valid times, in order, unless marked off; without any it is off. |
| EditorEffects.AddSlotExact | frontend/src/hooks/useWeeklyScheduleDraft.ts:39-48 | Adding a slot opens the day and adds the half hour behind its latest time, if that is free. |
| EditorEffects.AddFirstSlot | frontend/src/hooks/useWeeklyScheduleDraft.ts:39-48 | On a day without a valid time it adds 09:00. |
| EditorEffects.ToggleExact | frontend/src/hooks/useWeeklyScheduleDraft.ts:22-37 | Toggling closes an open day and opens a closed one, with the texts it has or with 09:00. |
| EditorEffects.RemoveSlotExact | frontend/src/hooks/useWeeklyScheduleDraft.ts:81-93 | Removing a text keeps the others; the day is off exactly if none is left. |
| EditorEffects.ChangeSlotExact | frontend/src/hooks/useWeeklyScheduleDraft.ts:71-79 | Typing over a text changes nothing else. |
| Draft.RemoveSlotSaves | frontend/src/hooks/useWeeklyScheduleDraft.ts:81-93 | Removing a slot of an open day saves exactly the valid times of its other texts. |
| Draft.ChangeSlotSaves | frontend/src/hooks/useWeeklyScheduleDraft.ts:71-79 | Typing over a slot saves the valid times of the other texts and the new one, if valid. |
| Draft.CopyMakesEqual | frontend/src/hooks/useWeeklyScheduleDraft.ts:50-69 | Copying from an open day makes the saved days equal; from a closed one it changes nothing. |
| Draft.ToggleTwice | frontend/src/hooks/useWeeklyScheduleDraft.ts:22-37 | Closing and reopening a day leaves the single slot 09:00. |
| Rebooking.GroupAdjacentSlots | src/modules/rebooking/rebooking.service.ts:1265-1289 | The loop returns maximal half-hour runs: joined they are the sorted input, neighbours differ by 30, a group's last and the next group's first never do, and the lengths sum to the input's. |
| Rebooking.RunsUnique | src/modules/rebooking/rebooking.service.ts:1265-1289 | There is only one such grouping. |
| Rebooking.RunsInOrder | src/modules/rebooking/rebooking.service.ts:1265-1285 | No group starts before the one before it has had its last slot. |
| Rebooking.EndOfRun | src/modules/rebooking/rebooking.service.ts:1291-1307 | A group ends 30 minutes times its length after its start, without wrapping at midnight. |
| EmptySlots.GapsOfDate | src/modules/rebooking/rebooking.service.ts:441-454 | One gap for each maximal run of the date's free slots, in order; they stand for exactly the free slots and their counts sum to them. |
| EmptySlots.DayGapsOrdered | src/modules/rebooking/rebooking.service.ts:444-454 | The gaps of a date come in order of their slots, and no gap starts where the one before it ends. |
| EmptySlots.DayGapsDescribe | src/modules/rebooking/rebooking.service.ts:440-454 | Every gap is well-formed and the gaps stand for exactly the free slots. |
| EmptySlots.GapInHalfHours | src/modules/rebooking/rebooking.service.ts:444-454 | A well-formed gap ends half an hour per slot after its start, is of the morning iff it starts before 12:00, and stands for the half hours from its start on. |
| EmptySlots.AllGapsDescribe | src/modules/rebooking/rebooking.service.ts:440-457 | So over all dates, also when a date is asked for twice. |
| EmptySlots.BookedByDate | src/modules/rebooking/rebooking.service.ts:422-430 | The map built by the loop holds exactly the booked times of each date. |
| EmptySlots.BuildEmptySlots | src/modules/rebooking/rebooking.service.ts:417-458 | The gaps of all dates, date after date as asked; every gap is well-formed and a slot of a date is free if and only if it lies in one of the date's gaps. |
| Paging.AllPages | src/modules/bookings/bookings.service.ts:351-402 | Following the cursors gives every row once, in order, for every limit of at least one. |
| Paging.PageThenRest | src/modules/finance/finance.service.ts:38-83 | A page is the next rows behind its cursor, has a next cursor iff rows are left, and that cursor stands right behind it. |
| Paging.PageExact | src/modules/finance/finance.service.ts:21-83 | The reply in full: the first rows behind the cursor, as many as asked for but at most a hundred; more to come if and only if rows are left, with the last row shown as cursor. |
| Paging.CursorExact | src/modules/bookings/bookings.service.ts:351-402 | Behind a row come the rows after it, behind a row that is gone nothing. |
| Paging.OneListing | src/modules/bookings/bookings.service.ts:351-354 | Without ties in the order column any two listings are the same. |
| Paging.EveryMatchingRowOnce | src/modules/finance/finance.service.ts:21-83 | Without ties the pages hold every matching row of the table exactly once. |
| PagingTies.PagingExact | src/modules/bookings/bookings.service.ts:351-402 | Every page size of at least one is safe, whatever listing of the matching rows each request sees, if and only if no two matching rows share their time. |
| PagingTies.CompleteExact | src/modules/finance/finance.service.ts:38-83 | For one page size: following the cursors ends with every row once, whatever listing each request sees, if and only if the time of the last row of each page but the last is nobody else's; a size of zero works for no rows only. |
| PagingTies.UniqueStaysPut | src/modules/bookings/bookings.service.ts:354-354 | A row whose time is nobody else's stands at the same place in every listing, with the same rows behind it. |
| PagingTies.TieLosesRow | src/modules/bookings/bookings.service.ts:373-376 | For any listing with a tie between neighbours there is another in which the second is behind neither page nor cursor. |
| Paging.TiesLoseRows | src/modules/bookings/bookings.service.ts:354-354 | The smallest case: two rows of one time, one per page. |
| Slug.BaseSlugShape | src/modules/tenants/tenants.service.ts:363-371 | The base slug is not empty, at most 40 characters, of a-z, 0-9 and single dashes. |
| Slug.BaseSlugLength | src/modules/tenants/tenants.service.ts:363-371 | It is the collapsed text cut at forty characters, or "master" when nothing is left of the text. |
| Slug.SlugSpellsText | src/modules/tenants/tenants.service.ts:363-371 | Unless nothing usable was typed, it spells the text's letters and digits in order: all of them when the collapsed text has at most 40 characters, else the first of them, at least twenty. |
| Slug.BaseSlugIdempotent | src/modules/tenants/tenants.service.ts:363-371 | Making a slug of a slug changes nothing. |
| Slug.CandidatesDistinct | src/modules/tenants/tenants.service.ts:377-380 | No two candidates are equal. |
| Slug.NumberedShape | src/modules/tenants/tenants.service.ts:378-378 | A numbered candidate has the shape of a slug if and only if its base does not end in a dash. |
| Slug.TrailingDash | src/modules/tenants/tenants.service.ts:363-378 | A name with a blank at its end gives such a base. |
| Slug.GenerateUniqueSlug | src/modules/tenants/tenants.service.ts:373-382 | The loop ends within one look-up more than there are slugs, with the first candidate not in use; it has the shape of a slug if and only if it is the base or the base does not end in a dash. |
| Numerals.DecimalInjective | src/modules/tenants/tenants.service.ts:378-378 | Two different counters never print the same. |

## Left out

- Retained completed jobs, lazy removal, delivery retries and back-off of the queue: only pending jobs are modelled.
- A charge that breaks off before its payment row is written (for instance while fetching the exchange rate): the modelled exception leaves the row pending; the subscription and the queue end up the same.
- Interleavings inside a billing handler, such as a cancel arriving while the provider is being asked.
- Expiry of an active subscription without a saved card, and of one cancelled at or after its period end: the program schedules nothing there, so nothing is claimed.
- Amounts, exchange rates, card masks, wallet ids and cancel reasons of subscriptions; card encryption is the identity.
- Notes, names and prices shown in answers; the text of notices; Telegram, provider and AI calls.
- Parsing of a booking's start text: the request carries the parsed instant, or none for a text that is no date.
- The list of dates an override may be read for in the weekly view, and the order of slots and the booking details in the day view.
- The popular services and next booking of the dashboard.
- Clock changes inside a day, except for `Zones.BuildThenFormat`: the results about dates assume a constant offset over the day.
- Which bookings the free-slot view fetches (its window is a UTC range): `Rebooking` takes the booked times as given.
- Negative and non-numeric page limits, and filters of the list endpoints beyond a predicate on rows.
- Transliteration and lower-casing of a name: `Slug` takes any text as their result. Two registrations racing for one slug.
- Rows deleted together with a tenant or a client; blocking of clients between reading and committing a request.
- Bot confirmation and rejection read and write in two steps in `Completion` only; elsewhere they are atomic.
- Recommendations, campaigns, heat maps, KPIs, authentication, administration and the CRUD modules: they would add only easy members or are not exact.
