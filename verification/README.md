# Ziftbook, verified

A Dafny 4.11 model of the hard logic of the Ziftbook booking backend, and proofs of what it promises.
Check it with `dafny verify dfyconfig.toml`.

| module | models |
|---|---|
| `Bookings`, `BookingTable` | the booking row, each SQL statement on it as a guarded update, and the table they run on |
| `Cancellation`, `Lifecycle` | the cancellation rules, what a booking link may do, and one booking over whole runs |
| `Checkout`, `CheckoutProtocol` | payment rows, Stripe's intents, every transaction of the checkout, and all their interleavings |
| `CheckoutSafety`, `CheckoutRaces` | what every interleaving keeps, and exactly which landed payments can be undone |
| `CheckoutEffects`, `CheckoutSettles`, `CheckoutRoutes` | what a report from Stripe, a settle job and each route bring about when nothing disturbs them |
| `CheckoutBackend` | the same transactions step by step on mutable rows, and one settle from start to end |
| `CheckoutRefunds` | what payment rows say of refunds: settled once, with what the ending owes |
| `Refunds`, `RefundFlag` | refunding one charge against Stripe's idempotency keys, with real time, and the flag for a refund that fell short |
| `Zone` | time zones and the local-time conversion |
| `Sorting`, `Intervals`, `Schedule` | merging, bisecting, joining and clipping of intervals and weekly shifts |
| `Slots`, `Reads`, `ReadLimits` | the slot engine as nested loops and as a set, the bounded reads behind it, and exactly how far they must reach |
| `Gap` | whole runs of grid bookings and moves, the candidate loop and the exclusion constraint |
| `Jobs`, `Limits` | the leased job queue, the rate limiter and the in-flight cap |
| `Photos`, `PhotoFiles` | the JPEG and PNG structure check, and files put together from segments and chunks to hold it against |
| `Calendar` | the iCalendar escape and fold, and what a reader finds in the file |

How it is modelled:

- Instants are whole microseconds. `now` is the clock of a statement's transaction and may run behind
  the order in which transactions take the tenant lock; each theorem says whether it needs clocks in
  order.
- One transaction is one step, one Stripe call is one step. Requests and jobs interleave at every step,
  and each may crash between any two. Stripe is an environment: intents, idempotency keys,
  `amount_refunded`; a call may fail with or without its effect.
- A loop, a row or a table the program updates in place is a method, a class or a field updated in
  place, proved against a function on values; the theorems are about those functions.

Where the code and what it says of itself differ, or a wanted property has a condition:

- `abandon` says it never undoes a check that landed (`backend/app/payments.py:1417-1419`). Stripe does
  cancel an authorisation that is only held, so a check that lands between its read and its cancel is
  undone, and a switch of kind can then let a second intent land. Exactly the card authorisations can be
  undone, and none where checks are SetupIntents (`CheckoutRaces`); never do two intents hold money at
  once, and never are two charged (`CheckoutSafety`).
- A later look never refunds more, except for a booking with no free-cancellation hours read at the very
  instant of its start and moved by a transaction with the same clock, and for a row older than the anchor
  column that a first move takes past its start (`Lifecycle.RefundCanRiseExactly`).
- An erasure is for good only with clocks in lock order; `BookingTable.LateClockRevives` says exactly
  which late statements revive a client, and `ALateAcceptanceRevives` is a run in which one does.
- Refunds never exceed what is due exactly while no run waits a key's whole life between its read and its
  request (`Refunds.DueBoundsExactly`). The flag for a refund that fell short is only as good as the last
  check's read: two refund events handled at once can take it down while money is owed (`RefundFlag`).
- The bounded reads answer as the whole tables do exactly when the window holds every start the days allow,
  with twelve hours before it and its longest buffer after it. For a last day without a clock change that is a
  day before of twelve hours, and 719 minutes from 23:59 to the window's end. A zone that skips a whole local
  day has less on both sides of it, and a slot is then offered inside a buffer (`ReadLimits`).
- The limiter's purge is unseen exactly while no reader is more than its margin and a microsecond behind a
  purge (`Limits.PurgingIsUnseenExactly`).
- The limiter lets `2 * limit - 1` through in a window's length, not more, when clocks follow the row
  lock. Out of order by less than a window, twice the limit still holds for limits up to two and for no
  larger one (`Limits`).

## Model

| member | source | states |
|---|---|---|
| Bookings.EndingsStand | backend/app/bookings.py:241-255 | no statement makes a row occupy time again, and a refunding ending or a no-show never changes |
| Bookings.CheckoutIsLeftOnce | backend/app/bookings.py:405-412 | no statement returns to awaiting_payment, and pending is entered only by a payment on a hold still running |
| Bookings.ChangesExactly | backend/app/bookings.py:241-255 | some statement changes a status into another on some row exactly for the fifteen changes listed |
| Bookings.NothingElseChanges | backend/app/bookings.py:745-849 | a matched statement moves the start only to the one named, keeps the length, and changes neither worker, hold nor terms unless it is the one for it |
| Bookings.ATransitionIsToItsTarget | backend/app/bookings.py:241-250 | a merchant's transition reaches the status asked for or changes nothing |
| Bookings.ATransitionIsOfWhatWasSeen | backend/app/bookings.py:732-740 | one that names a start the booking no longer has changes nothing |
| BookingTable.Store.Place | backend/app/bookings.py:434-455 | an insert lands exactly when the id is new and the client is not erased |
| BookingTable.Store.SweepExpired | backend/app/bookings.py:377-385 | EXPIRE ends exactly the lapsed holds and returns exactly those |
| BookingTable.Store.Execute | backend/app/bookings.py:732-758 | a qualified update changes its one row exactly when its WHERE clause matches, and nothing else |
| BookingTable.Store.Erase | backend/app/bookings.py:773-790 | END_FOR_ERASURE ends exactly the client's live bookings, each with an ending that refunds |
| BookingTable.RunFinishedHasStarted | backend/app/bookings.py:241-249 | with clocks not past `c`, a completed booking has started by `c` |
| BookingTable.RunKeepsClientQuiet | backend/app/bookings.py:760-790 | while clocks are in order nothing of an erased client comes to life |
| BookingTable.ErasureIsForGood | backend/app/bookings.py:773-790 | after an erasure, over every run with clocks in order, the client never has a live booking again |
| BookingTable.LateClockRevives | backend/app/bookings.py:705-713 | a clock behind the erasure's revives the client exactly by accepting, or taking the payment of, a hold still running at that clock |
| BookingTable.ALateAcceptanceRevives | backend/app/bookings.py:705-713 | a run from the empty table in which a late acceptance gives an erased client a live booking |
| BookingTable.ErasureEndsAllLive | backend/app/bookings.py:773-790 | an erasure leaves live exactly what an `at` in the future does not count; none when `at` is past |
| Cancellation.CancelLands | backend/app/booking_links.py:442-462 | a client's cancel runs exactly on a row its statement finds, on the terms shown |
| Cancellation.MoveLands | backend/app/booking_links.py:501-536 | a client's move that passes the link's checks finds its row unless the client is erased |
| Lifecycle.RunKeepsAnchor | backend/app/bookings.py:824-845 | over any run a recorded refund anchor never rises and stays recorded |
| Lifecycle.RefundNeverRises | backend/app/cancellation.py:84-110 | for every row and run: exactly when a later look refunds more, with and without a recorded anchor |
| Lifecycle.RefundCanRiseExactly | backend/app/cancellation.py:84-110 | some later look refunds more exactly when the run raised the anchor, which only a row without one allows, or in the corner case |
| Lifecycle.RefundCanRiseAtTheStart | backend/app/cancellation.py:92-94 | that case happens |
| Lifecycle.RefundCanRiseOnARowWithoutAnchor | backend/app/bookings.py:992-1003 | a row without an anchor can have its refund raised by a merchant's move |
| Lifecycle.StepCounts | backend/app/booking_links.py:501-546 | only a link's move of a confirmed booking spends the allowance, and only while some is left |
| Lifecycle.ClientMovesAreBounded | backend/app/bookings.py:824-849 | over every run the client moves a confirmed booking at most max_reschedules times and a request at most three, and merchant moves spend none |
| Lifecycle.MovesLeftAreExact | backend/app/cancellation.py:84-110 | the number of moves a link shows is the number that still go through, each to the start asked for, and not one more |
| Lifecycle.ARequestIsTheClientsOwn | backend/app/booking_links.py:208-226 | a request as placed can be moved three times and cancelled for all that was paid |
| Lifecycle.Deadlines | backend/app/cancellation.py:84-110 | the last instants to cancel, to get all back and to move |
| Lifecycle.ACancelPaysWhatWasShown | backend/app/booking_links.py:442-498 | a cancel through the link ends the booking with the percentage shown in its history, exactly while the link is live and that percentage is still right |
| Lifecycle.AMoveIsOfWhatWasShown | backend/app/booking_links.py:501-536 | the link moves a request only from the start shown and a booking only after the moves shown |
| Lifecycle.OnePageMovesOnce | backend/app/bookings.py:824-849 | of two moves sent from one page only one goes through, whatever happens in between |
| Lifecycle.WhatRefundsAreCountedFrom | backend/app/bookings.py:824-845 | a moved request starts afresh, a moved booking keeps the earlier start, nothing else changes the anchor |
| Lifecycle.EndingIsFinal | backend/app/bookings.py:251-255 | a booking that ended with a refund keeps its whole row over every run |
| Checkout.RefundDueIsTheShare | backend/app/payments.py:579-586 | what is due is the percentage rounded down, at most the charge |
| CheckoutSafety.CancelKeeps | backend/app/stripe_gateway.py:406-428 | a cancel at Stripe, refused or not, keeps the invariant |
| CheckoutSafety.CreateKeeps | backend/app/payments.py:589-626 | a create, replayed under its key or new, keeps the invariant |
| CheckoutSafety.InsertKeeps | backend/app/payments.py:690-708 | storing an intent keeps one live payment per booking and one row per intent |
| CheckoutSafety.ReconcileKeeps | backend/app/payments.py:724-761 | a reconcile of whatever Stripe said keeps the invariant and undoes nothing |
| CheckoutSafety.LandingKeepsBooking | backend/app/payments.py:781-866 | a landing books a live checkout once, or queues the settle job of a late charge |
| CheckoutSafety.RefundKeeps | backend/app/payments.py:1001-1050 | recording a refund keeps the invariant and undoes nothing |
| CheckoutSafety.ResumeTxKeeps | backend/app/payments.py:1353-1391 | replacing a payment by a new intent keeps the invariant |
| CheckoutSafety.AbandonWriteKeeps | backend/app/payments.py:1417-1441 | giving the slot back keeps the invariant |
| CheckoutSafety.StepKeeps | backend/app/payments.py:647-1441 | every step of every request, job, client, bank or crash keeps the invariant |
| CheckoutSafety.RunKeeps | backend/app/payments.py:647-1441 | so does every run of them |
| CheckoutSafety.AtMostOneHeld | backend/app/payments.py:1286-1391 | in every interleaving at most one intent holds the client's money, and its secret was handed out |
| CheckoutSafety.ChargedOnce | backend/app/payments.py:589-626 | at most one intent of a booking is ever charged, at any two moments of any run |
| CheckoutSafety.LandedTwiceOnlyAfterARelease | backend/app/payments.py:1286-1391 | of two intents that ever landed, one is a card authorisation since canceled |
| CheckoutSafety.OneLandsWithoutCardHolds | backend/app/payments.py:1286-1391 | where no check is a card authorisation, at most one intent ever lands |
| CheckoutSafety.CanceledRowsStayCanceled | backend/app/payments.py:461-466 | a row marked canceled has a canceled intent at Stripe, for good |
| CheckoutSafety.ChargesAreAnswered | backend/app/payments.py:798-829 | a charge booked its checkout, announced once, or is late, has its settle job, is never booked, and all of it is owed back |
| CheckoutSafety.DueIsConstant | backend/app/payments.py:579-586 | every settle run computes the same amount due, whenever it reads |
| CheckoutSafety.LeftAndAnnouncedOnce | backend/app/payments.py:781-795 | a checkout is left once and announced at most once, exactly when a payment that landed booked it |
| CheckoutSafety.ActionsAreSelected | backend/app/payments.py:481-515 | in every reachable state settling has an action exactly on the rows UNSETTLED selects, or on a late charge whose hold is not yet swept |
| CheckoutSafety.SweepIsExact | backend/app/payments.py:869-880 | after EXPIRE the sweep selects exactly the bookings settling acts on; an empty sweep leaves no dead open intent, no unreleased hold, no unanswered refund |
| CheckoutEffects.AnyoneMayStartAndStop | backend/app/payments.py:724-1441 | each request and job may start, and be cut off, at any moment |
| CheckoutEffects.ClientsPayWithTheSecret | backend/app/payments.py:629-710 | an intent is paid with its secret, or by a bank that had it under way, and not otherwise |
| CheckoutEffects.AReportIsTaken | backend/app/payments.py:724-866 | in any reachable state a report that a payment went through marks its row, books a checkout still held and announces it, or queues the settle job of a late charge, and a check's release; a canceled intent closes its row; any other report changes nothing |
| CheckoutEffects.AWebhookCatchesUp | backend/app/payments.py:724-866 | three undisturbed steps after a webhook event its payment's row says what Stripe showed |
| CheckoutSettles.StepsOverExactly | backend/app/payments.py:923-943 | in any reachable state a settle pass steps over a row it has read exactly when settling has no action on it |
| CheckoutSettles.ActsByStatus | backend/app/payments.py:925-942 | otherwise a charge goes to its refund, and an open payment or a check to its mark or release with its intent canceled |
| CheckoutSettles.ARefundIsRecorded | backend/app/payments.py:1001-1050 | the refund's transaction settles the charge with the share due, ends a checkout that was only late, and tells what was sent |
| CheckoutSettles.TheShareIsKnown | backend/app/payments.py:953-957 | in every reachable state a booking the client cancelled has its percentage recorded |
| CheckoutSettles.ASettleLeavesNothing | backend/app/payments.py:902-943 | a settle job left alone, with Stripe refusing only to cancel charges, is over in nine steps with nothing left to settle |
| CheckoutRoutes.APlacementHandsOut | backend/app/payments.py:647-710 | a placement that nothing disturbs stores one open payment at the price and hands out its intent |
| CheckoutRoutes.AFailedPlacementGivesBack | backend/app/payments.py:647-721 | one that fails at Stripe or at the insert gives the slot back and hands out nothing |
| CheckoutRoutes.AResumeHandsOut | backend/app/payments.py:1286-1391 | on an open payment a resume takes what has landed, replaces what is canceled or of the other kind, and otherwise hands out the same intent |
| CheckoutRoutes.AResumeBeginsAgain | backend/app/payments.py:1286-1391 | with every payment void it makes, stores and hands out a new one |
| CheckoutRoutes.AResumeRefuses | backend/app/payments.py:1296-1304 | on a payment already made, a checkout that is over or a kind not on offer it touches nothing |
| CheckoutRoutes.AResumeComesTooLate | backend/app/payments.py:1385-1387 | when the hold ran out while Stripe made the intent, the intent is canceled and nothing is stored |
| CheckoutRoutes.AConflictHandsItOutToo | backend/app/payments.py:1362-1378 | the second of two resumes hands out the intent the first one stored, or takes what has landed |
| CheckoutRoutes.AConflictThrowsAway | backend/app/payments.py:1379-1384 | an intent that lost to another payment is canceled |
| CheckoutRoutes.AnAbandonGivesBack | backend/app/payments.py:1417-1441 | an abandon of an open payment gives the slot back with the intent canceled, unless it is charged: then it takes the charge |
| CheckoutRoutes.AnAbandonWithoutOpenPayment | backend/app/payments.py:1417-1441 | with none open the slot is given back exactly while the checkout is held |
| CheckoutRefunds.RefundSettles | backend/app/payments.py:1001-1050 | recording a refund settles the charge with what its booking's ending owes, and changes no settled row |
| CheckoutRefunds.SettledIsWhatIsOwed | backend/app/payments.py:946-960 | over every run a charge is settled only when its booking ended with a refund: with all of it, or after the client's own cancellation with the percentage in its history, rounded down |
| CheckoutRefunds.SettledRowsStand | backend/app/payments.py:516-527 | a settled payment row never changes again, so it is settled once |
| CheckoutRaces.AbandonUndoesALandedCheck | backend/app/payments.py:1417-1441 | a run in which abandon undoes a check that landed |
| CheckoutRaces.SwitchLetsTwoIntentsLand | backend/app/payments.py:1310-1352 | a run in which a check and the payment replacing it both land |
| CheckoutRaces.LandedStaysUnlessReleased | backend/app/payments.py:1286-1441 | over every run an intent that landed stays landed, unless it was a card authorisation and is now canceled |
| CheckoutRaces.SetupChecksAreNeverUndone | backend/app/payments.py:1417-1419 | where checks are SetupIntents neither an abandon nor a switch, nor anything else, undoes one |
| CheckoutRaces.ACancelUndoesExactly | backend/app/payments.py:1316-1328 | in every reachable state the cancel of an abandon or a switch undoes a landed intent exactly when Stripe takes it and the intent is a card authorisation |
| CheckoutBackend.Backend.CancelIntent | backend/app/stripe_gateway.py:406-428 | the status answered is the intent's own, whether the cancel took or not |
| CheckoutBackend.Backend.ExpireCheckout | backend/app/bookings.py:387-399 | expires the checkout exactly when it still awaits payment |
| CheckoutBackend.Backend.MarkCanceled | backend/app/payments.py:461-468 | closes a payment exactly when it is open |
| CheckoutBackend.Backend.TakeLanding | backend/app/payments.py:781-795 | books exactly a live checkout, with its event and announcement |
| CheckoutBackend.Backend.WriteReconciled | backend/app/payments.py:724-866 | the step-by-step reconcile is the transaction the theorems are about |
| CheckoutBackend.Backend.Refuses | backend/migrations/versions/0044_booking_payments.py:34-83 | the two unique indexes refuse a row exactly when another live payment or the same intent is stored |
| CheckoutBackend.Backend.StoreResumed | backend/app/payments.py:1353-1391 | stores the new intent in the old one's place, or rolls all of it back on a conflict |
| CheckoutBackend.Backend.WriteAbandoned | backend/app/payments.py:1434-1441 | ends the checkout and its open payment together or neither |
| CheckoutBackend.Backend.ReadSettleRows | backend/app/payments.py:491-515 | reads exactly the unsettled payments, oldest first |
| CheckoutBackend.Backend.RecordRefund | backend/app/payments.py:1001-1050 | records the refund once and expires a hold that ran out |
| CheckoutBackend.Backend.SettlePass | backend/app/payments.py:917-943 | a pass that neither raises nor looks again leaves nothing UNSETTLED selects, and it raises only for the reasons `SettleBooking` may |
| CheckoutBackend.Backend.SettleBooking | backend/app/payments.py:902-914 | a settle job that does not raise leaves the booking out of the sweep; it raises whenever a Stripe call fails, and otherwise only over an intent Stripe has not canceled or a percentage not recorded |
| CheckoutSafety.AtMostOneUnsettled | backend/app/payments.py:491-515 | a booking never has two unsettled payments |
| Refunds.NeverMoreThanDue | backend/app/payments.py:946-1050 | over any overlapping, crashed and repeated runs that wait less than a key's life the refunds sum to at most what is due, and one run records |
| Refunds.SettledIsCovered | backend/app/payments.py:946-1050 | while no refund fails, a charge settled without a refusal has its due back |
| Refunds.RefusedOnlyByStripe | backend/app/payments.py:980-1000 | over every run a refund is recorded as refused only after Stripe refused a request, kept another one under the key, or had not that much left |
| Refunds.ARunSendsTheRest | backend/app/payments.py:946-1050 | in any reachable state without a live key, a run that meets no refusal sends exactly what is due and not yet sent back, by whomever, and records it |
| Refunds.TheKeyAnswersAgain | backend/app/payments.py:980-1000 | while the key lives the same request gets the same answer: a refund made is not made again, a refusal kept stays one |
| Refunds.ASlowRunPaysTwice | backend/app/payments.py:946-950 | a run from a new charge in which a job that waits a key's life between read and request sends the money again |
| Refunds.DueBoundsExactly | backend/app/payments.py:946-1000 | the due amount bounds the refunds of every run with no longer wait than `lag` exactly when `lag` is less than a key's life |
| RefundFlag.FlagIsTheLastWord | backend/app/payments.py:548-553 | over every run the flag is up exactly when the refund is recorded and what was last taken to be back is short of it |
| RefundFlag.FlagIsRightExactly | backend/app/payments.py:548-553 | so it is right exactly when that amount lies on the same side of what is due as what is really back |
| RefundFlag.ARefusalIsFlagged | backend/app/payments.py:1001-1050 | in every run in which no refund fails, one recorded as refused is flagged at once |
| RefundFlag.ChecksKeepTheFlagRight | backend/app/payments.py:1081-1122 | if no refund changes between a check's read and its write, the flag is right once the last change and the recording are followed by a check |
| RefundFlag.AStaleCheckUnflags | backend/app/payments.py:1081-1122 | a run from a new charge in which two events handled at once leave a failed refund unflagged |
| Zone.ReadBack | backend/app/schedule.py:41-46 | a wall time is read back at its first instant exactly when the clock does not skip it |
| Zone.LeastFromIsLeast | backend/app/schedule.py:33-40 | the closed form is the least instant whose local reading is at or past the wall time |
| Zone.LeastIsMonotone | backend/app/availability.py:151 | a later wall time is never an earlier instant |
| Zone.ToUtc | backend/app/schedule.py:33-46 | the minute walk ends and gives that least instant |
| Intervals.Merged | backend/app/availability.py:34-42 | sorted, strictly separated, covering the same points and met by the same stretches |
| Intervals.BisectRight | backend/app/availability.py:68 | the split point of ends at or before a value |
| Intervals.Overlaps | backend/app/availability.py:66-69 | true exactly when some block meets the stretch |
| Intervals.MembersAreRuns | backend/app/availability.py:34-42 | the members of a separated list are exactly the longest runs of covered points |
| Intervals.CoverDetermines | backend/app/availability.py:34-42 | only one separated list covers a given set of points |
| Schedule.OverlappingIsSomePair | backend/app/schedule.py:59-66 | the test on sorted neighbours holds exactly when some two shifts share a minute |
| Schedule.DayShifts | backend/app/schedule.py:69-77 | a weekday's joined shifts cover exactly the minutes worked, sorted and not touching |
| Schedule.ByWeekday | backend/app/schedule.py:80-86 | every weekday with rows, and its joined shifts |
| Schedule.ClipIsIntersection | backend/app/availability.py:45-63 | clipping keeps exactly the minutes both weeks have, sorted and not touching |
| Schedule.WithinIsInside | backend/app/schedule.py:102-105 | a shift fits one opening shift exactly when every minute of it is open |
| Schedule.AcceptedExactly | backend/app/schedule.py:158-178 | a week is accepted exactly when it runs forward, shares no minute and works only open minutes |
| Schedule.AcceptedWeekIsNotClipped | backend/app/schedule.py:170-178 | clipping an accepted week to the opening week it was accepted under changes nothing |
| Slots.BufferFor | backend/app/availability.py:28-31 | the service's own buffer, else the least whole minutes covering the percentage |
| Slots.AnchorRoundsUp | backend/app/availability.py:72-76 | the anchor is the least multiple of the step at or after the start, before midnight |
| Slots.WalkShift | backend/app/availability.py:137-149 | step-back and walk find exactly the free grid points that fit, ascending |
| Slots.ShiftSlots | backend/app/availability.py:131-149 | one shift's slots, repeated and skipped hours included |
| Slots.DaySlots | backend/app/availability.py:122-150 | one day's slots, ascending and inside the day |
| Slots.MemberSlots | backend/app/availability.py:92-152 | strictly ascending, and exactly the instants on the grid of a longest stretch worked and open that fit it, are not too early and are clear of blocks and bookings |
| Slots.FreeExactly | backend/app/availability.py:107-149 | a start is free exactly when it is not too early, meets no time off, no booking and no rest after one, and has its own rest free |
| Slots.StretchIsWorkedAndOpen | backend/app/availability.py:122-130 | every minute a slot may use lies in a shift of the worker and, where there are any, in opening hours |
| Slots.StretchIsLongest | backend/app/availability.py:122-130 | and a stretch ends only where one of the two does |
| Slots.WeekdaysFollow | backend/app/availability.py:122-126 | weekdays follow one another from Thursday 1 January 1970 |
| Slots.AscendingIsUnique | backend/app/availability.py:151-152 | two ascending lists of the same instants are the same list |
| Reads.UnreadBookingIsClear | backend/app/availability.py:163-201 | a booking the read leaves out blocks no slot, buffers included |
| Reads.UnreadOffIsClear | backend/app/availability.py:243-276 | time off the read leaves out blocks no slot |
| Reads.NothingIsOfferedInTimeOff | backend/app/availability.py:234-276 | no start on a day off, and none that meets hours off |
| Reads.ReadsLoseNothing | backend/app/availability.py:163-276 | the slots from the bounded reads are the slots from the whole tables, for a window padded by twelve hours on either side |
| Reads.CalmDaysAreLong | backend/app/availability.py:308-315 | zones without jumps over twelve hours, or two within twelve hours, have local days long enough for it |
| ReadLimits.ReadsAlikeExactly | backend/app/availability.py:163-276 | in any regular zone, every request the tables and settings allow is answered alike exactly when the window reaches twelve hours before, and to the longest buffer after, every start its days allow |
| ReadLimits.ReachesAllExactly | backend/app/availability.py:308-315 | for a first day with room for a slot and a last day the clock runs through, that is twelve hours in the day before the first and 719 minutes from 23:59 to the window's end |
| ReadLimits.NoChangeIsSteady | backend/app/availability.py:308-315 | the clock runs through every day whose midnight exists and that has no change before 23:59 |
| ReadLimits.ASlotOnASteadyDay | backend/app/availability.py:131-149 | on a day without a change every slot is on the step of the local clock, inside its stretch |
| ReadLimits.TooEarlyDiffers | backend/app/availability.py:163-201 | a start less than twelve hours into the window is offered inside the buffer of a booking that is not read |
| ReadLimits.TooLateDiffers | backend/app/availability.py:163-201 | a start whose longest buffer passes the window's end is offered although a booking that is not read is in it |
| ReadLimits.ASkippedDayLosesABuffer | backend/app/availability.py:199-201 | the first happens the day after a skipped local day |
| ReadLimits.ASkippedDayLosesATail | backend/app/availability.py:163-201 | the second happens the day before one, to an hour's service with an hour's buffer |
| Gap.OfferedIsClear | backend/app/availability.py:107-152 | an offered start is clear of every booking that holds the worker's time, both buffers counted |
| Gap.BookedIsSeen | backend/app/availability.py:163-176 | what the query holds for a worker is exactly the worker's confirmed and finished bookings and running holds, the excluded one apart |
| Gap.DeadRowsTakeNoSlot | backend/app/availability.py:163-176 | without a row that is none of these the same starts are offered |
| Gap.PlainKeeps | backend/app/bookings.py:377-412 | no statement that places nothing narrows a gap |
| Gap.BookKeeps | backend/app/bookings.py:1164-1236 | a grid booking keeps the gaps and always lands: the constraint never refuses it |
| Gap.ClientMoveKeeps | backend/app/booking_links.py:518-536 | a client's move on the grid keeps the gaps and is never refused by the constraint |
| Gap.MerchantMoveKeeps | backend/app/bookings.py:1980-2012 | a merchant's move on the grid keeps the gaps and is never refused by the constraint |
| Gap.RunKeepsTheGap | backend/app/bookings.py:1164-1236 | over every run, at any clocks, two occupying bookings of one worker stay apart by the earlier one's buffer |
| Gap.LoadCounts | backend/app/bookings.py:870-874 | a worker's load is the number of its rows that start between the local day's midnights |
| Gap.ByLoadIsOrdered | backend/app/bookings.py:862-875 | the same workers, each as often, by how many starts they have on the day and then by id |
| Gap.HeadIsLeast | backend/app/bookings.py:862-875 | the first of them has the fewest starts on the day, ties by id |
| Gap.Place | backend/app/bookings.py:912-975 | the first worker in the queue the constraint does not refuse |
| Gap.BookOnline | backend/app/bookings.py:1164-1236 | a booking with someone eligible always lands, on the one with the fewest starts on its local day, ties by id, and keeps the gaps |
| Jobs.BatchAdds | backend/app/jobs.py:96-108 | a claimed batch adds one claim to each of its jobs and none to others |
| Jobs.StepKeeps | backend/app/jobs.py:18-134 | every statement keeps the counts, the leases and the keys |
| Jobs.ClaimsAreSpaced | backend/app/jobs.py:84-108 | in every run a job is claimed at most five times, 1, 2, 4 and 8 minutes apart, and no key has two kept rows |
| Jobs.RunsEndInTheirLease | backend/app/worker.py:34-65 | runs whose wait and timeout fit in the lease are over before any later claim of the job |
| Jobs.RunsDoNotOverlapExactly | backend/app/worker.py:34-65 | for each kind, runs never overlap in any run of the workers exactly when the wait before a handler starts and its timeout fit in the minute's lease |
| Jobs.GivesUpAfterFifteenMinutes | backend/app/jobs.py:71-81 | the fifth claim is at least fifteen minutes after the first |
| Jobs.NeverClaimedAgain | backend/app/jobs.py:96-134 | a completed, given-up or pruned job is never claimed again |
| Jobs.FinishRetires | backend/app/jobs.py:196-235 | recording a job as done or skipped completes it at that clock and changes no other row |
| Jobs.DoneIsNeverClaimedAgain | backend/app/jobs.py:84-108 | over every run from the empty queue a job recorded as done is never claimed again and stays done |
| Jobs.ClaimableExactly | backend/app/jobs.py:84-108 | in every run a job may be claimed exactly while it is not done, has a claim left, and its due time or the wait after its last claim is over |
| Jobs.AFailureComesBack | backend/app/jobs.py:205-230 | a failed handler leaves the job as claimable as it was, with the error recorded |
| Jobs.PruneDeletesExactly | backend/app/jobs.py:119-134 | PRUNE deletes exactly what finished or was given up at its fifth claim more than the retention ago |
| Jobs.JobTable.Enqueue | backend/app/jobs.py:18-51 | added exactly when no kept row has the key, due when asked or now, other rows unchanged |
| Jobs.JobTable.Take | backend/app/jobs.py:96-108 | up to twenty due unlocked jobs, the longest waiting first |
| Jobs.JobTable.Record | backend/app/jobs.py:196-235 | too late: completed and skipped; no error: completed; an error: recorded and still open; other rows unchanged |
| Jobs.JobTable.Prune | backend/app/jobs.py:128-147 | deletes the prunable rows and counts them |
| Limits.PurgingRefinesKeeping | backend/app/limits.py:46-65 | with readers at most the margin and a microsecond late, purging changes no answer of hit, refund or count |
| Limits.ALaterReaderDisagrees | backend/app/limits.py:25-28 | a microsecond later still it can |
| Limits.PurgingIsUnseenExactly | backend/app/limits.py:25-65 | over every run with readers at most `lag` late purging changes no answer exactly when `lag` is at most the margin and one microsecond |
| Limits.AHitCountsOne | backend/app/limits.py:33-44 | an attempt adds one to the count of each of its keys and of no other, and its caller is told the count |
| Limits.AWindowLasts | backend/app/limits.py:33-44 | a window counts its first attempt until its length is over |
| Limits.AHitKeepsTheWindow | backend/app/limits.py:33-44 | a later attempt does not put its end off |
| Limits.ARefundUndoesAHit | backend/app/limits.py:167-186 | an attempt given back at once was never counted |
| Limits.OverExactly | backend/app/limits.py:124-152 | an attempt is over exactly when some key had all its limit allows before it |
| Limits.AdmitsAtMost | backend/app/limits.py:33-44 | with clocks out of order by at most `m` windows, a stretch one window long admits at most `(2 + m) * (limit - 1) + 1` |
| Limits.UnderTwiceTheLimit | backend/app/limits.py:33-44 | with clocks in the row lock's order, at most `2 * limit - 1` |
| Limits.InOrderReachesIt | backend/app/limits.py:33-44 | and that many can pass |
| Limits.TwiceTheLimitExactly | backend/app/limits.py:33-44 | out of order by less than a window, twice the limit holds for every run of attempts exactly for limits up to two, or clocks out by at most a microsecond |
| Limits.LateClocksAdmitMore | backend/app/limits.py:33-44 | five a minute, two microseconds out of order: thirteen pass in a minute |
| Limits.UnderTwiceTheLimitPasses | backend/app/limits.py:33-65 | the limiter as it runs, purges and other keys included, lets less than twice the limit through |
| Limits.Limiter.Charge | backend/app/limits.py:58-65 | counts once on each key, tells each its hits, then purges at most a hundred old unlocked rows |
| Limits.Limiter.Hit | backend/app/limits.py:124-152 | refused with nothing counted when its client has no slot, counted without slot or purge in a caller's session, and true exactly when some key is over its limit |
| Limits.Limiter.Refund | backend/app/limits.py:167-180 | one hit back on each live key that has one, nothing else |
| Limits.Limiter.CountOf | backend/app/limits.py:183-194 | the hits of the live window, else zero |
| Limits.Gate.Enter | backend/app/limits.py:96-112 | a slot exactly when every bucket stays within its cap with this call, and the counters stay exact |
| Limits.Gate.Leave | backend/app/limits.py:113-121 | gives both back, and an entry at zero goes |
| Photos.Markers | backend/app/photos.py:212-229 | the one complete chain of markers from SOI |
| Photos.OneChain | backend/app/photos.py:212-229 | a file has only one |
| Photos.UnsafeContainer | backend/app/photos.py:252-281 | a JPEG passes exactly with a safe chain to a first scan, a PNG exactly with no bad chunk up to IEND, anything else always |
| Photos.UnsafeJpeg | backend/app/photos.py:262-272 | no FF00, no lossless frame and at most 64 KiB of EXIF up to the first scan |
| Photos.UnsafePng | backend/app/photos.py:273-281 | no animation and no oversized EXIF chunk up to IEND |
| Photos.MultiScan | backend/app/photos.py:232-246 | one scan exactly when the first scan codes every component of the first frame and both can be read |
| PhotoFiles.AJpegPassesExactly | backend/app/photos.py:212-272 | a JPEG put together from segments passes exactly when none is an FF00 or a lossless frame and its EXIF bodies are at most 64 KiB together |
| PhotoFiles.AJpegWithoutAScanIsRefused | backend/app/photos.py:212-272 | one whose segments are followed by EOI or by nothing is refused |
| PhotoFiles.APngPassesExactly | backend/app/photos.py:273-281 | a PNG put together from chunks passes exactly when none announces an animation and none is an EXIF chunk over 64 KiB |
| PhotoFiles.OneScanExactly | backend/app/photos.py:231-251 | a file is taken for one scan exactly when the first scan names as many components as the first frame header has |
| Calendar.DecodedReads | backend/app/mail.py:664-676 | UTF-8 text decodes to itself |
| Calendar.Fold | backend/app/mail.py:659-676 | whole characters, at most 75 octets first and 74 then, and no piece cut while the next character still fits |
| Calendar.AShortLineIsWhole | backend/app/mail.py:657-662 | a line of at most 75 octets is left whole |
| Calendar.UnfoldInverts | backend/app/mail.py:659-676 | unfolding a folded line gives it back |
| Calendar.FoldedLinesAreShort | backend/app/mail.py:659-676 | no physical line over 75 octets |
| Calendar.UnescapeInverts | backend/app/mail.py:648-654 | unescaping gives the text with control characters as spaces and every line end as LF |
| Calendar.FileReadsBack | backend/app/mail.py:678-694 | unfolding and splitting the file gives its content lines |
| Calendar.Ics | backend/app/mail.py:632-694 | the file reads back to its content lines and no physical line is over 75 octets |
| Calendar.EveryFieldReadsBack | backend/app/mail.py:678-694 | a reader finds the booking's id, moves, stamps and summary each under its name |
| Calendar.OrdinaryTextIsKept | backend/app/mail.py:648-654 | a text without control characters and carriage returns is read as it was written |
| Calendar.NoControlIsLeft | backend/app/mail.py:648-654 | and nothing a reader sees is a control character but for the line ends |

## Left out

- HTTP routing, sessions, cookies, rendering and sending mail, object storage, the Stripe SDK and image decoding: foreign calls or plumbing.
- `KEEP_CARD_FEE_ON_CLIENT_CANCEL` and the `held` branch of `_refund` after a restored backup: switched off, or only for erasures applied again.
- A mismatch between Stripe's amount or account and the row, captures and cancellations made by hand in Stripe's dashboard: only the PaymentIntent amount test of `reconcile` is modelled.
- The checkout machine follows one booking with its payment rows; other bookings share no row with it. Its merchant, link, sweep and erasure statements are steps of the environment.
- SQL's three-valued logic is written out where a NULL can occur (`expires_at`, `seen`, the anchors); elsewhere columns are as their constraints say.
- A time zone is a finite table of whole-minute changes far enough apart; local mean time offsets with seconds and the zone files' footer rules are not part of the model.
- Merchant overrides and settings changed in the middle of a run, which are meant to be able to break buffers, are not steps of `Gap`; hours, opening hours, time off, step and notice may change freely there.
- `Gap` reads and writes the table as a value: `place` is the loop over its queue, and a savepoint lost to a hard-deleted worker is not modelled.
- A handler's thread that goes on after its timeout: `Jobs` ends a run at its timeout, as the worker counts it.
- Slots.MemberSlots: the per-shift body of the nested loops is its own method, as is the per-day one.
- Shifts are whole minutes of a day, as the validated input is; a row with seconds is not modelled.
- The window clamp, the pending caps and the per-address keys of the limiter; a rollback of a caller's own session, which uncounts its attempt.
- The retention sweep's batches over sessions, audit events and booking origins: one predicate each, and its rate-limit batch is a `Purge` of `Limits`.
- Lone surrogates in a summary: Dafny's characters have none.
- Clients, consents, accounts, invites, the second factor, password hashing, encryption and the database functions that are not shown in the repository.
