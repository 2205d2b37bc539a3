# A model of the field-service platform, with proofs

The repository is a back end for a pest-control field service (bookings, dispatch, payments, chat, subscriptions) and
a browser client. Its logic is small transactions over database rows, some list algorithms, and one protocol between
concurrent requests and the server. This project models that logic in Dafny and proves what it keeps, over every input
and every run. Where the code does not keep what it is meant to keep, a lemma gives the exact condition under which it
does, and another lemma shows a failing input, mostly a short run from empty tables.

`dafny verify dfyconfig.toml` checks the whole project.

## How it is laid out

A table is a sequence of rows that are never removed, so a row is named by its position. Each service call is one step:
a function of the tables gives what it does (the specification), a class with the tables as fields has a method that
does it the way the service does, early returns, loops and row updates included, and the method's contract ties the
two together and says which invariant the call keeps. A query that the service puts to the database in one call is a
function here too. Runs are sequences of calls with arbitrary arguments; what the clock, the gateway, the network or
another party may answer is an argument of the call.

| file | what it models |
|---|---|
| `TokenStore.dfy` | refresh-token rows: issue, rotate, revoke, reuse detection |
| `SessionClient.dfy`, `SessionProtocol.dfy` | the browser's single-flight refresh and logout, and their interleavings with the server |
| `SessionAlarms.dfy` | when the server takes a refresh for theft |
| `SessionStorage.dfy` | what the client's steps leave in its storage, and when it announces a logout |
| `Scheduling.dfy` | windows, business hours, local days, rescheduled durations |
| `BookingLifecycle.dfy` | the booking state machine and its history |
| `DispatchTables.dfy`, `Dispatch.dfy`, `DispatchService.dfy` | bookings, assignments and technicians, and every call that changes them |
| `DispatchInvariants.dfy`, `TechnicianCalendar.dfy`, `DispatchRuns.dfy` | what those calls keep, and exactly when |
| `DispatchOutcomes.dfy`, `PaymentOutcomes.dfy` | when each call goes through, and what it leaves in every table |
| `DispatchExamples.dfy`, `PaymentExamples.dfy` | short runs from empty tables in which something goes wrong |
| `Ranking.dfy`, `AutoAssign.dfy` | scoring, sorting and automatic assignment |
| `Payments.dfy`, `PaymentsService.dfy`, `PaymentRuns.dfy` | refunds, gateway events, invoices |
| `Revenue.dfy` | revenue grouped by label |
| `Csv.dfy`, `Reports.dfy` | the CSV export, a reader for section 2 of RFC 4180, and the reports exported |
| `Fcm.dfy` | push delivery in batches with retries |
| `Chat.dfy`, `Presence.dfy` | read receipts, unread counts, who is online |
| `CycleDates.dfy`, `Renewals.dfy`, `RenewalExamples.dfy` | billing-cycle dates and subscription renewal |
| `Addresses.dfy` | the one-default-address rule |
| `Wrappers.dfy`, `Rounding.dfy` | option and result types, cardinalities of row sets, rounding to two decimals |

## Where the code and its intent part

- The engine's own description (`backend/src/modules/technician-assignment/assignment-engine.service.ts:7-11`) makes
  unavailability a hard filter; `rankCandidates` never looks at the flag, and the check after it does. So automatic
  assignment fails whenever the best-ranked technician is off duty (`AutoAssign.UnavailableBestHidesTheOthers`).
- A refresh begun while a logout is under way presents the row logged out of. The server takes it for theft exactly
  when it has taken the logout first (`SessionAlarms.OwnLogoutsCauseNoAlarmExactlyWhen`,
  `SessionAlarms.OverlappingLogoutRaisesTheAlarm`).
- A login completed while a refresh is on its way back is overwritten by that refresh's pair
  (`SessionStorage.StoresTheLatestExactlyWhen`, `SessionStorage.LoginCanBeOverwritten`).
- Rescheduling checks the slot but not the assigned technician (`TechnicianCalendar.MovingKeepsTechniciansExactlyWhen`,
  `DispatchExamples.RescheduleCanDoubleBook`), and adds the buffer again each time (`Scheduling.BufferAccumulates`).
- The business-hours test compares clock hours only, so a window that runs past midnight passes
  (`Scheduling.BusinessHoursHoldExactlyWhen`, `Scheduling.LateEveningVisitIsAccepted`).
- The refund webhook replaces the running refund total by the amount of a single refund
  (`PaymentRuns.RefundsOkExactlyWhenNeverOverwritten`, `PaymentExamples.RefundWebhookCanOverRefund`).
- `ensureInvoice` and `create` mean to issue a new invoice after a void; `bookingId` is unique in the schema
  (`backend/prisma/schema.prisma:574`), so they cannot (`PaymentRuns.VoidedInvoiceBlocksReissue`,
  `PaymentExamples.VoidedInvoiceCannotBeReissued`).
- A success event marks any invoice PAID without consulting the declared machine, and resets a partly refunded payment
  to SUCCEEDED (`PaymentRuns.InvoicesFollowTheMachineExactlyWhen`, `PaymentExamples.SuccessCanReviveAVoidInvoice`,
  `PaymentRuns.RefundsAreShownExactlyWhen`, `PaymentExamples.ReplayedSuccessCanHideARefund`).
- A failure reported after a success marks the payment FAILED and leaves the invoice PAID
  (`PaymentRuns.PaidIsBackedExactlyWhenNoLateFailure`, `PaymentExamples.LateFailureCanLeaveAPaidInvoice`).
- Recomputing an invoice's totals has no guard on payments already made
  (`PaymentRuns.BillsAgreeExactlyWhenNeverRebilled`, `PaymentExamples.RecomputingCanRebillAPaidInvoice`).
- A subscription's first renewal books the start date a second time (`Renewals.OneVisitMoreThanRenewals`). A renewal
  books a date that is past whenever it comes due, exactly for subscriptions whose next service is before their next
  bill (`Renewals.VisitIsPastWheneverDueExactlyWhen`): that is how every one begins, and how it stays unless a plan
  change or a short month turns the two dates round (`Renewals.AheadExactlyWhenKept`,
  `CycleDates.NextDatesKeepOrderExactlyWhen`, `RenewalExamples.EarlyPlanChangeCanRenewAhead`).
- Changing plan restarts billing but not service, so the two fall out of step (`Renewals.InStepExactlyWhenCareful`,
  `RenewalExamples.PlanChangeCanPutBillingOutOfStep`).
- A monthly date on a day that the next month lacks moves for good (`CycleDates.DayOfMonthIsKeptExactlyWhen`,
  `CycleDates.EarlyDaysAreKept`, `CycleDates.MonthEndCanMoveForGood`).
- Nothing keeps a socket from being registered after it has disconnected, should joining its room take time; it is
  then never removed (`Presence.PresenceIsLiveSocketsExactlyWhen`, `Presence.LeakedStaysOnline`).

## Model

| member | source | states |
|---|---|---|
| SessionProtocol.NoRefreshTokenSentTwice | frontend/src/services/apiClient.ts:35-47 | In every interleaving of requests, lost or failed refresh responses, logins, logouts and other parties' operations, the tokens the client posts to /auth/refresh are pairwise different, row by row |
| SessionProtocol.AtMostOneRefreshInFlight | frontend/src/services/apiClient.ts:83-85 | At most one refresh call is sent and unsettled at any time |
| SessionAlarms.AlarmOnlyAfterOutsideRevocation | backend/src/modules/auth/token.service.ts:90-97 | In every interleaving in which no refresh overlaps a logout, the very row presented whenever the reuse branch fires was revoked by another party or in answer to an earlier firing; the client's own logouts never cause one |
| SessionAlarms.CallRaisesTheAlarmExactlyWhen | backend/src/modules/auth/token.service.ts:90-97 | After any run whatever the reuse branch fires on the next call taken if and only if another party, an earlier firing or a logout the server has taken had revoked the row presented |
| SessionAlarms.OwnLogoutsCauseNoAlarmExactlyWhen | frontend/src/services/authService.ts:40-47 | Over any run whatever, every row presented when the branch fires was revoked by another party or an earlier firing, if and only if the server never takes a call after a logout with the same token |
| SessionAlarms.StepKeepsAlarmsOutsideExactlyWhen | backend/src/modules/auth/token.service.ts:90-97 | The same for one step |
| SessionAlarms.WithoutOverlapNeverTooLate | frontend/src/services/authService.ts:40-47 | It never does so while no refresh overlaps a logout |
| SessionAlarms.EveryAlarmIsExplained | backend/src/modules/auth/token.service.ts:90-97 | In every interleaving whatever, the row presented when the branch fires was revoked by another party, by an earlier firing, or by a logout of this client that the server had taken |
| SessionAlarms.OverlappingLogoutRaisesTheAlarm | frontend/src/services/authService.ts:40-47 | A run from empty tables in which a refresh begun during a logout, and taken after it, is taken for theft with nobody else involved |
| SessionAlarms.RunKeepsApart | frontend/src/services/authService.ts:40-47 | Without such an overlap no row logged out of has been, or can still be, presented |
| SessionAlarms.PasswordChangeRaisesTheAlarm | backend/src/modules/auth/token.service.ts:132-137 | A run from empty tables in which a password change elsewhere makes the client's next refresh count as theft |
| SessionProtocol.TransmittedAtMostTwice | frontend/src/services/apiClient.ts:81-90 | Every request is transmitted once or twice, and twice only if it is a retried non-auth call |
| SessionProtocol.NetworkStepsMakeProgress | frontend/src/services/apiClient.ts:76-95 | Every response, server step and refresh settlement strictly decreases a measure over pending requests, retry flags and untaken calls |
| SessionProtocol.NetworkRunsAreBounded | frontend/src/services/apiClient.ts:76-95 | Whatever the schedule, pending work comes to rest within as many steps as the measure says |
| SessionProtocol.RequestSettlesWithinThreeMoves | frontend/src/services/apiClient.ts:76-95 | However many other requests start and settle meanwhile, three steps of its own settle a request |
| SessionProtocol.OneRequestMovesOn | frontend/src/services/apiClient.ts:76-95 | A step that is a request's own brings it strictly nearer to settling, any other leaves it as it is |
| SessionProtocol.NoRequestIsStranded | frontend/src/services/apiClient.ts:83-93 | A request that has not settled always has an enabled step of its own |
| SessionProtocol.StepKeepsInv | frontend/src/services/apiClient.ts:35-96 | Each step of client, network, server and outsiders keeps the joint invariant: distinct rows posted, the stored token unspent unless its call is awaited, the answer on its way never yet presented, spent rows accounted for |
| SessionProtocol.ServerKeepsInv | backend/src/modules/auth/token.service.ts:81-121 | The same when the server takes a refresh call: accepted, refused or taken for theft |
| SessionProtocol.RespondKeepsInv | frontend/src/services/apiClient.ts:76-95 | The same when a response reaches the interceptor, in particular when it starts a refresh |
| SessionProtocol.SettleKeepsInv | frontend/src/services/apiClient.ts:38-46 | The same when a refresh settles, with tokens, refused or lost |
| SessionProtocol.ElsewhereKeepsInv | backend/src/modules/auth/token.service.ts:123-137 | The same for any token operation by another party |
| SessionProtocol.ReusedRowIsAccounted | backend/src/modules/auth/token.service.ts:90-97 | A call under way that meets a revoked row was not preceded by another call with that row: another party, an earlier alarm or a logout the server has taken revoked it |
| SessionProtocol.LogoutKeepsInv | frontend/src/services/authService.ts:40-47 | The joint invariant survives the beginning of a logout |
| SessionProtocol.ServerLogsOutKeepsInv | backend/src/modules/auth/token.service.ts:123-130 | It survives the server taking a logout, at whatever time |
| SessionProtocol.RunKeepsInv | frontend/src/services/apiClient.ts:35-96 | The joint invariant holds after every run |
| SessionStorage.SettlingARefresh | frontend/src/services/apiClient.ts:37-47 | A settled refresh leaves exactly the token delivered and its access token stored, announces nothing, and resends all that awaited it; a refused or lost one leaves the storage empty, announces a logout for each, and rejects them |
| SessionStorage.FirstUnauthorized | frontend/src/services/apiClient.ts:81-93 | A first 401 joins the refresh under way, or begins one with the stored token, or with nothing stored is rejected with a logout announced |
| SessionStorage.SettlingAResponse | frontend/src/services/apiClient.ts:76-95 | Success resolves the request, any other settling failure rejects it, and nothing else is touched |
| SessionStorage.StartingARequest | frontend/src/services/apiClient.ts:28-32 | A request goes out once, with the access token then stored |
| SessionStorage.LogoutIsAnnouncedExactlyWhen | frontend/src/services/apiClient.ts:87-93 | In every step a logout is announced if and only if a refresh was refused or lost or a first 401 found the storage empty |
| SessionStorage.SteadyRunsAnnounceNoLogout | frontend/src/services/apiClient.ts:87-93 | Over any run in which no refresh is lost or refused and nobody logs out, a client with a token announces none and keeps one |
| SessionStorage.StoresTheLatestExactlyWhen | frontend/src/utils/storage.ts:19-22 | Over such a run, whenever no refresh is under way the storage holds the last pair issued to this client, if and only if no refresh delivers a pair older than a login's |
| SessionStorage.NextRefreshPostsTheLatest | frontend/src/services/apiClient.ts:37-40 | Then a first 401 posts the token issued last |
| SessionStorage.LoginCanBeOverwritten | frontend/src/services/authService.ts:28-33 | A run from empty tables in which a refresh on its way back overwrites the pair of a later login by somebody else |
| SessionStorage.InitialIsCurrent | frontend/src/utils/storage.ts:12-18 | A new client meets what these ask of the beginning |
| SessionClient.JoinersShareTheOutcome | frontend/src/services/apiClient.ts:83-93 | Of all requests that joined one refresh, either every one is resent with the new access token or every one is rejected unsent |
| SessionClient.ResponseKeepsRequestsOk | frontend/src/services/apiClient.ts:76-95 | A response keeps waiters, phases, retry flags and transmission counts consistent |
| SessionClient.SettlingKeepsRequestsOk | frontend/src/services/apiClient.ts:83-93 | Settling a refresh keeps them consistent and leaves nobody waiting |
| SessionClient.TokenStorage.Set | frontend/src/utils/storage.ts:19-22 | The access token is replaced; the refresh token only when one came with it |
| SessionClient.TokenStorage.Clear | frontend/src/utils/storage.ts:23-26 | Both tokens are gone |
| SessionClient.ApiClient.RefreshAccessToken | frontend/src/services/apiClient.ts:37-47 | A call is posted with the stored refresh token, or none if none is stored |
| SessionClient.ApiClient.HandleResponse | frontend/src/services/apiClient.ts:76-95 | The interceptor as written ends in the state the protocol's reaction to a response specifies |
| SessionClient.ApiClient.HandleRefreshSettled | frontend/src/services/apiClient.ts:83-95 | The pair delivered is stored and nothing announced, or the storage emptied and a logout announced for each awaiting request; promise and continuations end in the state the protocol specifies |
| SessionClient.ApiClient.Continue | frontend/src/services/apiClient.ts:87-95 | One awaiting request is resent with the new token, or clears storage, announces logout and is rejected |
| TokenStore.RotationMovesOneSession | backend/src/modules/auth/token.service.ts:115-120 | An accepted rotation swaps the presented row for a new one among the user's unrevoked rows: same number, nobody else affected |
| TokenStore.RotationIssuesExactlyWhen | backend/src/modules/auth/token.service.ts:81-121 | A token is issued if and only if the row is known, unrevoked, unexpired, the secret matches and the user is active; a refusal changes the table only on reuse |
| TokenStore.IssuedTokenIsAccepted | backend/src/modules/auth/token.service.ts:56-120 | A token issued is accepted by rotation if and only if it has not expired and the user is active, only with its own secret, and every other token gets the verdict it got before |
| TokenStore.RotatedTokenLasts | backend/src/modules/auth/token.service.ts:81-121 | The token that replaces another is accepted until now plus the lifetime and no longer, and the other is from then on reuse |
| TokenStore.ReuseEndsTheFamily | backend/src/modules/auth/token.service.ts:90-97 | Presenting a revoked token leaves its user with no unrevoked row and everyone else untouched |
| TokenStore.RevocationIsPermanent | backend/src/modules/auth/token.service.ts:123-137 | Over any run a row never disappears or changes owner, and once revoked never changes again |
| TokenStore.EachRowAcceptedAtMostOnce | backend/src/modules/auth/token.service.ts:81-121 | Over any run of issue, rotate, revoke and account changes no row is accepted by rotation twice |
| TokenStore.SessionsBoundedByLogins | backend/src/modules/auth/token.service.ts:56-121 | A user's unrevoked rows never exceed those at the start plus the logins since |
| TokenStore.StepSessions | backend/src/modules/auth/token.service.ts:56-137 | One operation adds at most the one session of a login |
| TokenStore.TokenService.RevokeAll | backend/src/modules/auth/token.service.ts:132-137 | Exactly the unrevoked rows of the user get the revocation time |
| TokenStore.TokenService.RevokeToken | backend/src/modules/auth/token.service.ts:123-130 | The named row gets a revocation time if it had none; an unreadable or unknown token changes nothing |
| TokenStore.TokenService.Rotate | backend/src/modules/auth/token.service.ts:81-121 | The checks in their order; reuse revokes all, other failures change nothing, success revokes the row and issues one |
| DispatchOutcomes.PlacedBookingsAreAtMostFive | backend/src/modules/bookings/availability.service.ts:71-91 | In every reachable state at most five active bookings that the run created for anybody but an administrator, or rescheduled, cover any instant, however many others there are |
| DispatchOutcomes.FlagTellsThePlacing | backend/src/modules/bookings/bookings.service.ts:144-150 | Over any run a booking counts as placed through the check if and only if a create by anybody but an administrator, or a reschedule, placed it |
| DispatchOutcomes.CustomerCreates | backend/src/modules/bookings/bookings.service.ts:144-175 | A customer's or technician's create goes through if and only if its window resolves and fewer than five undeleted active bookings overlap it; then that window, PENDING, is booked with one history row |
| DispatchOutcomes.AdminCreates | backend/src/modules/bookings/bookings.service.ts:144-175 | An administrator's create goes through if and only if it has a date |
| DispatchOutcomes.VisitIsCreated | backend/src/modules/subscriptions/recurring-booking.service.ts:56-92 | A visit is always created, an hour long, unchecked |
| DispatchOutcomes.BookingIsRescheduled | backend/src/modules/bookings/bookings.service.ts:294-341 | A reschedule goes through if and only if the role and status allow it, the window resolves, and fewer than five others overlap it; then only the window changes, with a self row |
| DispatchOutcomes.BookingIsCancelled | backend/src/modules/bookings/bookings.service.ts:358-387 | Administrators cancel anything that has not ended, others what is pending or confirmed; the status becomes CANCELLED and nothing else changes |
| DispatchOutcomes.StatusIsChanged | backend/src/modules/bookings/bookings.service.ts:395-433 | Administrators take any edge, technicians any but a cancellation, customers none; the status asked for is reached and nothing else changes |
| DispatchOutcomes.TechnicianChecksIn | backend/src/modules/location/location.service.ts:135-171 | If and only if ever assigned, within the radius and on the way: ARRIVED |
| DispatchOutcomes.TechnicianChecksOut | backend/src/modules/location/location.service.ts:188-208 | If and only if ever assigned and in progress: COMPLETED |
| DispatchOutcomes.AllowedEdges | backend/src/modules/bookings/enums/index.ts:15-32 | An edge is one stage further, a cancellation before the end, or a no-show when confirmed or arrived |
| DispatchOutcomes.NamedTechnicianIsAssigned | backend/src/modules/technician-assignment/technician-assignment.service.ts:68-121 | If and only if the booking is there without an active assignment and the technician can take it, or is there and the checks are overridden: one ASSIGNED row is new, nothing else changes |
| DispatchOutcomes.NamedTechnicianTakesOver | backend/src/modules/technician-assignment/technician-assignment.service.ts:129-191 | If and only if the assignment is active and the technician can take the booking, or is there and the checks are overridden: the row becomes REASSIGNED, one ASSIGNED row is new, nothing else changes |
| DispatchOutcomes.AssignmentIsAccepted | backend/src/modules/technician-assignment/technician-assignment.service.ts:199-217 | If and only if the row is ASSIGNED and its technician or an administrator asks: it becomes ACCEPTED, a PENDING booking CONFIRMED with a history row, and nothing else changes |
| DispatchOutcomes.AssignmentIsDeclined | backend/src/modules/technician-assignment/technician-assignment.service.ts:227-247 | Likewise DECLINED, bookings untouched |
| DispatchOutcomes.AssignmentIsCancelled | backend/src/modules/technician-assignment/technician-assignment.service.ts:250-270 | If and only if active: CANCELLED, bookings untouched |
| DispatchOutcomes.AvailabilityIsSet | backend/src/modules/technician-assignment/technician-assignment.service.ts:361-391 | The flag of one technician is set and nothing else |
| DispatchOutcomes.GuardsRefuse | backend/src/modules/technician-assignment/availability.service.ts:26-60 | Which error the guards give: nobody there, off duty, busy, full day, in that order |
| DispatchOutcomes.RefusalChangesNothing | backend/src/modules/technician-assignment/technician-assignment.service.ts:68-272 | A call that is refused changes nothing |
| DispatchTables.NoCrowdOfSlotHolders | backend/src/modules/bookings/availability.service.ts:74-84 | From the depth bound: slot-checked bookings that overlap two by two are never more than five |
| Scheduling.OverlappingWindowsShareAnInstant | backend/src/modules/bookings/availability.service.ts:78-80 | Windows that overlap two by two by the query's test all contain one instant |
| DispatchInvariants.AddBookingKeepsSlots | backend/src/modules/bookings/bookings.service.ts:144-150 | A create that passed the count keeps the depth bound, and so does an unchecked one |
| DispatchInvariants.MoveBookingKeepsSlots | backend/src/modules/bookings/bookings.service.ts:317-331 | A reschedule that passed the count, itself excluded, keeps the depth bound |
| DispatchInvariants.VisitHoldsASlotUnchecked | backend/src/modules/subscriptions/recurring-booking.service.ts:56-92 | A generated visit counts against later slot checks that overlap it but not towards the bound, takes no technician's time, and has one history row |
| DispatchRuns.TechniciansAreNeverDoubleBooked | backend/src/modules/technician-assignment/availability.service.ts:26-83 | Over any run without overrides and without rescheduling an assigned booking, each technician's live jobs have disjoint windows and at most eight start on one day |
| TechnicianCalendar.CalendarStaysInOrderExactlyWhenCareful | backend/src/modules/technician-assignment/technician-assignment.service.ts:98-106 | Over any run at all, the calendars stay in order all the way if and only if every override and reschedule found room |
| TechnicianCalendar.CallKeepsTechniciansExactlyWhenCareful | backend/src/modules/technician-assignment/technician-assignment.service.ts:68-272 | The same for one call of any kind; only overrides and reschedules can spoil a calendar |
| TechnicianCalendar.AssigningKeepsTechniciansExactlyWhen | backend/src/modules/technician-assignment/availability.service.ts:48-60 | A new assignment, checked or not, keeps the calendars in order if and only if there is no conflict and the day has room, or the booking is no longer live |
| TechnicianCalendar.AssignKeepsTechniciansExactlyWhen | backend/src/modules/technician-assignment/technician-assignment.service.ts:68-126 | For assign with or without override: in order afterwards if and only if an overriding caller found room |
| TechnicianCalendar.ReassignKeepsTechniciansExactlyWhen | backend/src/modules/technician-assignment/technician-assignment.service.ts:129-196 | For reassign: the same, counting room after the old assignment is released |
| TechnicianCalendar.MovingKeepsTechniciansExactlyWhen | backend/src/modules/bookings/bookings.service.ts:309-331 | A reschedule checks the slot only: the calendars stay in order if and only if the assigned technician has room at the new time |
| TechnicianCalendar.AddingAJobConflictsExactlyWhen | backend/src/modules/technician-assignment/availability.service.ts:62-83 | The conflict count is positive exactly when the new job would double-book |
| TechnicianCalendar.AddingAJobOverloadsExactlyWhen | backend/src/modules/technician-assignment/workload.service.ts:64-71 | The capacity test fails exactly when the new job would be a ninth on its day |
| TechnicianCalendar.GuardsPassExactlyWhen | backend/src/modules/technician-assignment/availability.service.ts:26-60 | The guards let a live booking through if and only if the technician exists, is flagged available, and the calendars stay in order with the job added |
| TechnicianCalendar.MovingConflictsExactlyWhen | backend/src/modules/bookings/bookings.service.ts:317-331 | Moving double-books exactly when another job of the same technician overlaps the new window |
| TechnicianCalendar.MovingOverloadsExactlyWhen | backend/src/modules/bookings/bookings.service.ts:317-331 | Moving overloads exactly when the new day already has eight others |
| DispatchExamples.RescheduleCanDoubleBook | backend/src/modules/bookings/bookings.service.ts:317-331 | A run from empty tables: two bookings assigned to one technician, all in order, and a reschedule that goes through and double-books him |
| DispatchRuns.AtMostOneActiveAssignment | backend/src/modules/technician-assignment/technician-assignment.service.ts:84-97 | In every reachable state a booking has at most one ASSIGNED or ACCEPTED assignment, overrides included |
| DispatchInvariants.AddAssignmentKeepsCore | backend/src/modules/technician-assignment/technician-assignment.service.ts:84-121 | Assigning a booking without an active assignment keeps one active assignment for each booking |
| DispatchInvariants.DeactivatedBookingIsFree | backend/src/modules/technician-assignment/technician-assignment.service.ts:164-183 | Inside reassign the booking is free between releasing the old assignment and adding the new one |
| DispatchInvariants.CallKeepsCore | backend/src/modules/technician-assignment/technician-assignment.service.ts:68-272 | References, one active assignment, slot depth and replayable history survive every call |
| DispatchInvariants.RunKeepsCore | backend/src/modules/technician-assignment/technician-assignment.service.ts:68-272 | They survive every run |
| DispatchRuns.HistoryReplaysToTheStatus | backend/src/modules/bookings/booking-status.service.ts:17-67 | In every reachable state a booking's history starts with null to PENDING, is linked row to row by allowed edges or reschedules, ends in its status, and has no more changes than the status is stages along |
| DispatchRuns.AcceptedBookingsAreConfirmed | backend/src/modules/technician-assignment/technician-assignment.service.ts:199-220 | In every reachable state an ACCEPTED assignment has a booking past PENDING, and no assignment is ever COMPLETED |
| BookingLifecycle.StatusChangesAreBounded | backend/src/modules/bookings/enums/index.ts:15-32 | A replayable history holds at most five status changes |
| BookingLifecycle.EndedIsNeverLeft | backend/src/modules/bookings/enums/index.ts:29-31 | COMPLETED, CANCELLED and NO_SHOW are kept by every later row |
| BookingLifecycle.ReplayExtends | backend/src/modules/bookings/booking-status.service.ts:42-54 | A fitting row extends a replayable history to the new status |
| DispatchInvariants.LoggedUpdateKeepsHistory | backend/src/modules/bookings/booking-status.service.ts:42-54 | Updating a booking and logging a fitting row keeps every booking's history replayable |
| DispatchTables.WorkloadCountsTheDay | backend/src/modules/technician-assignment/workload.service.ts:17-55 | The daily count, taken between computed midnights, is the number of live jobs on that calendar day |
| Scheduling.DayBoundsIsTheLocalDay | backend/src/modules/technician-assignment/workload.service.ts:17-23 | An instant lies within the day bounds exactly when it is on the same local day |
| Scheduling.BusinessHoursHoldExactlyWhen | backend/src/modules/bookings/availability.service.ts:53-64 | An accepted window lies within 9:00 to 21:00 of its day if and only if it ends on the day it starts and not in the minute after 21:00 |
| Scheduling.BusinessHoursTestIsTheRule | backend/src/modules/bookings/availability.service.ts:53-64 | On whole minutes within one day the hour test is exactly the stated rule |
| Scheduling.RequestAcceptedExactlyWhen | backend/src/modules/bookings/availability.service.ts:27-68 | On whole minutes within one day a customer's request is accepted if and only if it is five hours ahead and inside business hours, buffer included |
| Scheduling.ExemptRequestIsAccepted | backend/src/modules/bookings/availability.service.ts:32-44 | Exempt from the rules any date is accepted, for service and buffer together |
| Scheduling.DurationIsToTheMinute | backend/src/modules/bookings/bookings.service.ts:309-316 | A reschedule measures the window to the nearest minute, half an hour at least |
| Scheduling.LateEveningVisitIsAccepted | backend/src/modules/bookings/availability.service.ts:53-64 | A four-hour visit at 20:30, ending at 01:00, is accepted |
| Scheduling.BufferAccumulates | backend/src/modules/bookings/bookings.service.ts:309-320 | After n reschedules the window is the service plus n + 1 buffers long |
| DispatchService.Service.CreateBooking | backend/src/modules/bookings/bookings.service.ts:144-175 | Checks, then one booking and its first history row, or nothing and the error; the invariants survive, and the calendars stay in order exactly when the call was careful |
| DispatchService.Service.RescheduleBooking | backend/src/modules/bookings/bookings.service.ts:294-341 | Checks, then the new window and a self row in the history, or nothing and the error; the invariants survive, and the calendars stay in order exactly when the call was careful |
| DispatchService.Service.Cancel | backend/src/modules/bookings/bookings.service.ts:358-387 | Checks, then the transition to CANCELLED, or nothing and the error; the invariants survive, and the calendars stay in order exactly when the call was careful |
| DispatchService.Service.SetStatus | backend/src/modules/bookings/bookings.service.ts:395-433 | Role rules, then the transition, or nothing and the error; the invariants survive, and the calendars stay in order exactly when the call was careful |
| DispatchService.Service.ApplyTransition | backend/src/modules/bookings/booking-status.service.ts:17-67 | Self and forbidden edges are refused; an allowed one updates the status and appends its row; references, assignments, slots and history stay in order |
| DispatchService.Service.GpsCheckIn | backend/src/modules/location/location.service.ts:135-171 | Ever-assigned technician, inside the radius, then the transition to ARRIVED; the invariants survive, and the calendars stay in order exactly when the call was careful |
| DispatchService.Service.GpsCheckOut | backend/src/modules/location/location.service.ts:188-208 | Ever-assigned technician, then the transition to COMPLETED; the invariants survive, and the calendars stay in order exactly when the call was careful |
| DispatchService.Service.VetTechnician | backend/src/modules/technician-assignment/technician-assignment.service.ts:98-104 | Named or best-ranked technician, then the guards unless overridden; who passes them leaves the calendars in order when assigned |
| DispatchService.Service.AssignTechnician | backend/src/modules/technician-assignment/technician-assignment.service.ts:68-126 | Checks, then one new ASSIGNED row, or nothing and the error; the invariants survive, and the calendars stay in order exactly when the call was careful |
| DispatchService.Service.ReassignTechnician | backend/src/modules/technician-assignment/technician-assignment.service.ts:129-196 | Checks, then the old row REASSIGNED and one new ASSIGNED row, or nothing and the error; the invariants survive, and the calendars stay in order exactly when the call was careful |
| DispatchService.Service.AcceptAssignment | backend/src/modules/technician-assignment/technician-assignment.service.ts:199-224 | The row becomes ACCEPTED and a pending booking CONFIRMED with its history row; the invariants survive, and the calendars stay in order exactly when the call was careful |
| DispatchService.Service.RejectAssignment | backend/src/modules/technician-assignment/technician-assignment.service.ts:227-247 | The row becomes DECLINED, from ASSIGNED only; the invariants survive, and the calendars stay in order exactly when the call was careful |
| DispatchService.Service.RemoveAssignment | backend/src/modules/technician-assignment/technician-assignment.service.ts:250-270 | The row becomes CANCELLED, from an active status only; the invariants survive, and the calendars stay in order exactly when the call was careful |
| DispatchService.Service.SetAvailability | backend/src/modules/technician-assignment/technician-assignment.service.ts:361-391 | The flag of the technician changes and nothing else; the invariants survive, and the calendars stay in order exactly when the call was careful |
| Ranking.RankingIsExact | backend/src/modules/technician-assignment/assignment-engine.service.ts:104-175 | The ranking holds exactly the technicians that are not deleted, not excluded, free of conflicts and under capacity, each once with its own figures, in comparator order |
| Ranking.RankedExactlyWhen | backend/src/modules/technician-assignment/assignment-engine.service.ts:104-175 | A technician is ranked if and only if he is there, not left out, free at the time and under eight jobs that day, and every one ranked has true figures: area, jobs, distance to two decimals, and the score these come to |
| Ranking.LoadWeighs | backend/src/modules/technician-assignment/assignment-engine.service.ts:119-123 | One job fewer is worth two and a half points, up to eight jobs |
| Ranking.DistanceWeighs | backend/src/modules/technician-assignment/assignment-engine.service.ts:137-140 | Five kilometres are worth a point, up to 50 km |
| Ranking.LoadAgainstDistance | backend/src/modules/technician-assignment/assignment-engine.service.ts:119-145 | So with the area alike one job weighs exactly as much as 12.5 km |
| Ranking.LessBusyComesFirst | backend/src/modules/technician-assignment/assignment-engine.service.ts:141-175 | At equal area and distance the less busy technician has the higher rounded score and comes first |
| Ranking.ScoresAreBetween30And100 | backend/src/modules/technician-assignment/assignment-engine.service.ts:116-143 | Scores lie between 30 and 100, the area is worth 40, and an idle technician of the area on the spot has 100 |
| Ranking.TiesAreBroken | backend/src/modules/technician-assignment/assignment-engine.service.ts:169-174 | On equal scores fewer jobs come first, then the nearer, known before unknown |
| Ranking.Dominance | backend/src/modules/technician-assignment/assignment-engine.service.ts:118-175 | A technician no worse in area, load and known distance never compares after the other, in spite of rounding and the 50 km clamp |
| Ranking.AreaComesFirst | backend/src/modules/technician-assignment/assignment-engine.service.ts:122-145 | Serving the area outweighs load and distance together |
| Ranking.UnknownLocationScoresAsHalfway | backend/src/modules/technician-assignment/assignment-engine.service.ts:130-146 | A technician without a location outscores, before rounding, exactly those farther than 25 km |
| Ranking.PrecedesIsAWeakOrder | backend/src/modules/technician-assignment/assignment-engine.service.ts:169-174 | The comparator is asymmetric and transitive, and incomparability is too, so sorting by it is well defined |
| Ranking.PickedIsBest | backend/src/modules/technician-assignment/assignment-engine.service.ts:179-194 | Nobody eligible compares strictly ahead of the technician picked |
| Ranking.SortRanks | backend/src/modules/technician-assignment/assignment-engine.service.ts:169-174 | The sort is a permutation in comparator order |
| Ranking.CandidatesAreTheEligible | backend/src/modules/technician-assignment/assignment-engine.service.ts:104-115 | The loop collects exactly the technicians that pass the hard filters |
| Ranking.CandidatesAreDistinct | backend/src/modules/technician-assignment/assignment-engine.service.ts:104-167 | No technician is collected twice |
| Ranking.SortInPlace | backend/src/modules/technician-assignment/assignment-engine.service.ts:169-174 | Sorting the array in place yields the specified ranking of what was in it |
| Ranking.RankCandidates | backend/src/modules/technician-assignment/assignment-engine.service.ts:69-176 | Filtering, scoring, pushing and sorting yields the specified ranking |
| AutoAssign.AutoVettingSucceedsExactlyWhen | backend/src/modules/technician-assignment/technician-assignment.service.ts:403-411 | Resolving a technician automatically and passing the guards succeeds, with or without somebody excluded, if and only if the best-ranked technician is flagged available, and picks him |
| AutoAssign.AutoAssignSucceedsExactlyWhen | backend/src/modules/technician-assignment/technician-assignment.service.ts:98-106 | So automatic assignment succeeds if and only if the best-ranked technician is flagged available |
| AutoAssign.AutoReassignSucceedsExactlyWhen | backend/src/modules/technician-assignment/technician-assignment.service.ts:148-166 | And automatic reassignment, the present technician left out |
| AutoAssign.UnavailableBestHidesTheOthers | backend/src/modules/technician-assignment/assignment-engine.service.ts:104-110 | With somebody eligible and available, the automatic call fails exactly when the best-ranked is unavailable, while naming the other would succeed |
| DispatchExamples.OffDutyTechnicianBlocksAutoAssign | backend/src/modules/technician-assignment/assignment-engine.service.ts:104-110 | A roster for which, whatever is booked, the automatic call fails and naming the other technician succeeds |
| PaymentRuns.RefundsNeverExceedThePayment | backend/src/modules/payments/payments.service.ts:207-245 | Over any sequence of refunds of any amounts and replayed payment events, what was sent to the gateway equals the recorded total and is at most the amount plus 1e-6 |
| PaymentRuns.RefundsOkExactlyWhenNeverOverwritten | backend/src/modules/payments/payments.service.ts:413-443 | The refund total is right all through any run, webhooks included, if and only if no refund webhook contradicts it |
| PaymentRuns.RefundWebhookKeepsTheLedgerExactlyWhen | backend/src/modules/payments/payments.service.ts:413-443 | One refund webhook keeps the total right if and only if it reports the recorded total, and invoices in agreement if and only if it does or the invoice was paid |
| PaymentExamples.RefundWebhookCanOverRefund | backend/src/modules/payments/payments.service.ts:413-443 | A run from empty tables that pays back 168 of a payment of 118 |
| PaymentRuns.AcceptedRefund | backend/src/modules/payments/payments.service.ts:207-245 | An accepted refund is positive, and the payment becomes REFUNDED exactly when at most 1e-6 is left, else PARTIALLY_REFUNDED |
| PaymentRuns.PaiseRefundsAreExact | backend/src/modules/payments/payments.service.ts:207-236 | On whole paise refunds never exceed the payment at all |
| PaymentOutcomes.RefundGoesThroughExactlyWhen | backend/src/modules/payments/payments.service.ts:185-236 | A refund goes through if and only if the payment has succeeded and has an order, the amount is positive and within the balance to 1e-6, and the gateway accepts; then exactly that is sent and recorded, otherwise nothing changes |
| PaymentOutcomes.WholeBalanceIsRefunded | backend/src/modules/payments/payments.service.ts:207-236 | Without an amount exactly the balance is sent and the payment is REFUNDED |
| PaymentOutcomes.PaidBookingIsNotChargedAgain | backend/src/modules/payments/payments.service.ts:81-87 | A booking with a paid invoice is refused and nothing changes |
| PaymentOutcomes.InvoicedBookingIsCharged | backend/src/modules/payments/payments.service.ts:89-142 | With an open invoice there is one new pending payment for its total if and only if no order of it is active, the gateway creates one and its id is not taken |
| PaymentOutcomes.ChargingIssuesAnInvoice | backend/src/modules/payments/payments.service.ts:81-142 | Without an invoice one is issued for what the booking comes to, whatever becomes of the order |
| PaymentOutcomes.InvoiceIsIssuedExactlyWhen | backend/src/modules/invoices/invoices.service.ts:69-103 | An invoice for the total is issued if and only if the booking has none |
| PaymentOutcomes.InvoiceIsVoidedExactlyWhen | backend/src/modules/invoices/invoices.service.ts:133-157 | Anything but a paid or void invoice becomes VOID and nothing else changes |
| PaymentOutcomes.TotalsAreRecomputed | backend/src/modules/invoices/invoices.service.ts:287-307 | The total alone is taken afresh |
| PaymentRuns.SettledPaymentsHavePaidInvoices | backend/src/modules/payments/payments.service.ts:376-390 | A SUCCEEDED, PARTIALLY_REFUNDED or REFUNDED payment has a PAID invoice |
| PaymentRuns.PaidIsNeverLeft | backend/src/modules/invoices/invoices.service.ts:133-157 | Over any run a PAID invoice stays PAID |
| PaymentRuns.EventTwiceIsOnce | backend/src/modules/payments/payments.service.ts:335-443 | Any gateway event delivered twice in a row has the effect of one delivery |
| PaymentRuns.RunKeepsInv | backend/src/modules/payments/payments.service.ts:185-443 | Unique orders and bookings, balanced refunds and paid invoices survive every run without a contradicting refund webhook |
| Payments.StepKeepsInv | backend/src/modules/payments/payments.service.ts:185-443 | They survive every such call |
| Payments.RefundKeepsInv | backend/src/modules/payments/payments.service.ts:185-247 | They survive a refund, accepted or refused |
| Payments.SyncKeepsInv | backend/src/modules/payments/payments.service.ts:364-411 | They survive any order status, in any order and number |
| Payments.IntentKeepsInv | backend/src/modules/payments/payments.service.ts:81-152 | They survive creating an order, whether or not the gateway answers |
| PaymentRuns.SuccessFollowsTheInvoiceMachineExactlyWhen | backend/src/modules/invoices/enums/index.ts:11-31 | A success event moves the invoice along the declared machine if and only if the invoice was neither a draft nor void |
| PaymentRuns.InvoicesFollowTheMachineExactlyWhen | backend/src/modules/invoices/enums/index.ts:11-31 | Every invoice moves along the declared machine, all through any run, if and only if no success arrives for a draft or void one |
| PaymentExamples.SuccessCanReviveAVoidInvoice | backend/src/modules/payments/payments.service.ts:376-390 | A run from empty tables in which a void invoice becomes paid |
| PaymentRuns.VoidedInvoiceBlocksReissue | backend/src/modules/payments/payments.service.ts:467-491 | Invoicing succeeds if and only if no voided invoice is in the way, because the schema allows one per booking |
| PaymentExamples.VoidedInvoiceCannotBeReissued | backend/src/modules/payments/payments.service.ts:467-491 | A run from empty tables after which a booking with a voided invoice can be invoiced by neither service nor charged |
| PaymentRuns.ReplayedSuccessHidesRefunds | backend/src/modules/payments/payments.service.ts:376-390 | A repeated success event keeps SUCCEEDED meaning nothing refunded if and only if nothing had been |
| PaymentRuns.RefundsAreShownExactlyWhen | backend/src/modules/payments/payments.service.ts:376-390 | SUCCEEDED means nothing refunded, all through any run, if and only if no success arrives for a payment of which something was |
| PaymentExamples.ReplayedSuccessCanHideARefund | backend/src/modules/payments/payments.service.ts:376-390 | A run from empty tables after which a payment with 50 refunded shows as SUCCEEDED |
| PaymentRuns.BillsAgreeExactlyWhenNeverRebilled | backend/src/modules/invoices/invoices.service.ts:287-307 | Every payment is for its invoice's total, all through a run, if and only if no recomputation changes an invoice that has payments |
| PaymentExamples.RecomputingCanRebillAPaidInvoice | backend/src/modules/invoices/invoices.service.ts:287-307 | A run from empty tables after which a paid invoice is for 236 and its payment for 118 |
| PaymentRuns.StepKeepsBillsExactlyWhen | backend/src/modules/invoices/invoices.service.ts:287-307 | The same for one call |
| PaymentRuns.SuccessSettlesPaymentAndInvoice | backend/src/modules/payments/payments.service.ts:376-397 | A success event, whatever went before, makes the payment SUCCEEDED and its invoice PAID and touches nothing else |
| PaymentRuns.FailureMarksOnlyThePayment | backend/src/modules/payments/payments.service.ts:335-410 | A failure event marks the payment FAILED, gives the reason the first time, and touches no amount, invoice or other payment |
| PaymentRuns.PaidIsBackedExactlyWhenNoLateFailure | backend/src/modules/payments/payments.service.ts:398-410 | Every PAID invoice has a settled payment, all through a run, if and only if no failure arrives late for the only one it has |
| PaymentExamples.LateFailureCanLeaveAPaidInvoice | backend/src/modules/payments/payments.service.ts:398-410 | A run from empty tables after which an invoice is paid and no payment settled |
| PaymentRuns.StepKeepsBackingExactlyWhen | backend/src/modules/payments/payments.service.ts:376-410 | The same for one call |
| PaymentRuns.InvoiceIsTaxed | backend/src/modules/payments/payments.service.ts:472-476 | An invoice is price less discount plus 18 percent to within half a paisa, and nothing when the discount covers the price |
| PaymentRuns.DearerBookingsAreNotInvoicedLess | backend/src/modules/invoices/tax.service.ts:20-25 | The rounded total never falls when the price rises |
| PaymentsService.Service.RefundPayment | backend/src/modules/payments/payments.service.ts:185-236 | The checks in their order, then the new total and status, or nothing and the error; a ledger in order stays so unless a webhook contradicts a refund total |
| PaymentsService.Service.Sync | backend/src/modules/payments/payments.service.ts:364-411 | PAID settles payment and invoice together, failure marks the payment, anything else does nothing; a ledger in order stays so unless a webhook contradicts a refund total |
| PaymentsService.Service.ReconcileRefund | backend/src/modules/payments/payments.service.ts:413-443 | A successful refund report overwrites total and status if it differs; a ledger in order stays so unless a webhook contradicts a refund total |
| PaymentsService.Service.Ensure | backend/src/modules/payments/payments.service.ts:467-491 | The live invoice, or a new one for price less discount plus tax, or the constraint violation; a ledger in order stays so |
| PaymentsService.Service.Create | backend/src/modules/invoices/invoices.service.ts:69-113 | A new invoice unless a live one exists or the constraint refuses it; a ledger in order stays so unless a webhook contradicts a refund total |
| PaymentsService.Service.Annul | backend/src/modules/invoices/invoices.service.ts:133-157 | VOID, except for a paid or void invoice; a ledger in order stays so unless a webhook contradicts a refund total |
| PaymentsService.Service.Recompute | backend/src/modules/invoices/invoices.service.ts:287-307 | The total is taken afresh from price and discount, the status left alone; a ledger in order stays so unless a webhook contradicts a refund total |
| PaymentsService.Service.Intent | backend/src/modules/payments/payments.service.ts:81-152 | Paid invoices are refused, an open active order is reused, otherwise one pending payment for the invoice's total; a ledger in order stays so unless a webhook contradicts a refund total |
| Revenue.RevenueIsConserved | backend/src/modules/analytics/analytics.service.ts:136-155 | Labels distinct, best earner first, counts adding up to the payments, values adding up to the net revenue: exactly on whole paise, otherwise within 0.005 for each group |
| Revenue.GroupsHoldTheirOwnRows | backend/src/modules/analytics/analytics.service.ts:140-147 | Each group's value is the net of exactly the payments with its label |
| Revenue.ReportedGroupsHoldTheirOwnRows | backend/src/modules/analytics/analytics.service.ts:136-155 | Every group reported counts exactly the payments with its label, at least one, and is worth their net: exactly on whole paise, otherwise within 0.005 |
| Revenue.EveryLabelIsReported | backend/src/modules/analytics/analytics.service.ts:136-155 | A label is reported if and only if some payment has it |
| Revenue.GroupingConserves | backend/src/modules/analytics/analytics.service.ts:139-147 | Grouping keeps the net total and the number of payments |
| Revenue.SortKeeps | backend/src/modules/analytics/analytics.service.ts:154-154 | The sort is a permutation in descending order |
| Revenue.RoundingDrift | backend/src/modules/analytics/analytics.service.ts:151-151 | Rounding moves the total by at most 0.005 for each group, and not at all on whole paise |
| Revenue.ComputeGroupNet | backend/src/modules/analytics/analytics.service.ts:136-155 | The loop over an insertion-ordered map, the rounding and the sort yield the specified groups |
| Csv.CsvRoundTrip | backend/src/modules/analytics/export.service.ts:66-78 | Reading the lines of any non-empty list of non-empty rows of any strings gives back exactly the rows |
| Csv.CellReadsBack | backend/src/modules/analytics/export.service.ts:76-78 | A written cell reads back as itself whatever it contains |
| Csv.LineReadsBack | backend/src/modules/analytics/export.service.ts:68-70 | A written line reads back as its row |
| Csv.RawCellIsLost | backend/src/modules/analytics/export.service.ts:60-67 | A cell that needs quotes and is written without them never reads back as itself |
| Csv.FileReadsBack | backend/src/modules/analytics/export.service.ts:59-74 | A file of table lines and raw lines reads back as meant if and only if no raw line needs quotes |
| Csv.ExportReadsBackExactlyWhen | backend/src/modules/analytics/export.service.ts:59-74 | The exported text reads back as the records of the report, and nothing more, if and only if title, dates and headings need no quotes |
| Csv.SectionByPlace | backend/src/modules/analytics/export.service.ts:66-72 | Those records by place: each section begins after four and the rows and three of every section before, with its heading, its columns, each row at its index, and a blank |
| Csv.HeadByPlace | backend/src/modules/analytics/export.service.ts:60-65 | Title, dates and a blank at the beginning, and nothing after the last section |
| Reports.EveryExportReadsBack | backend/src/modules/analytics/reports.service.ts:16-166 | Every report the service exports, whatever its rows hold, reads back as its records: title, dates, and for each section heading, columns and every row |
| Reports.DatesNeedNoQuotes | backend/src/modules/analytics/reports.service.ts:16-26 | An ISO date of any year needs no quotes |
| Csv.ToCsv | backend/src/modules/analytics/export.service.ts:59-74 | The text written reads back as the records of the report if and only if title, dates and headings need no quotes |
| Csv.PushSection | backend/src/modules/analytics/export.service.ts:67-71 | Heading, column line, one line for each row in order, and an empty line are appended |
| Csv.PushRows | backend/src/modules/analytics/export.service.ts:69-70 | One line for each row, in order, is appended |
| Fcm.SendToTokens | backend/src/modules/notifications/fcm.service.ts:62-98 | Batches concatenate to the token list, none over 500; succeeded plus failed is attempted; the totals count the tokens one by one, and exactly those answered invalid are reported; each batch is tried at most three times and given up only then |
| Fcm.SendingCountsTokens | backend/src/modules/notifications/fcm.service.ts:88-95 | Delivered tokens are counted and invalid ones reported, position by position |
| Fcm.InvalidPositionsExactly | backend/src/modules/notifications/fcm.service.ts:92-93 | A position is reported if and only if its answer was that the token is invalid, once and in order |
| Fcm.FateByPosition | backend/src/modules/notifications/fcm.service.ts:75-87 | A token's answer is the one at its place in the first answer to its batch of 500, or none if the batch was given up |
| Fcm.WithRetry | backend/src/modules/notifications/fcm.service.ts:116-131 | The first attempt that does not throw decides; null only after three throws |
| Fcm.SendBatch | backend/src/modules/notifications/fcm.service.ts:76-95 | One batch keeps the accounts balanced, answered or given up |
| Fcm.CountAnswers | backend/src/modules/notifications/fcm.service.ts:88-95 | The answers of a batch are split into delivered and failed without loss |
| Fcm.AnswersAddUp | backend/src/modules/notifications/fcm.service.ts:88-95 | Delivered plus refused is all, and the invalid tokens are a subsequence of the batch |
| Chat.StatusNeverGoesBack | backend/src/modules/chat/message.service.ts:138-171 | Over any run no message goes back along SENT, DELIVERED, READ, nor changes sender, conversation or time |
| Chat.RunKeepsReceipts | backend/src/modules/chat/message.service.ts:122-172 | After any run every message by another sender at or before a participant's read mark is READ |
| Chat.StepKeepsReceipts | backend/src/modules/chat/message.service.ts:37-195 | The same for one call |
| Chat.MarkReadKeepsReceipts | backend/src/modules/chat/message.service.ts:122-157 | The same for markRead, whole conversation or up to a message, the read mark moving forward or back |
| Chat.UnreadCountExplained | backend/src/modules/chat/message.service.ts:206-216 | The unread count is the messages not yet READ plus exactly the READ ones after a moved-back read mark, so the former never exceed it |
| Chat.MarkAllReadLeavesNothing | backend/src/modules/chat/message.service.ts:122-157 | Marking a whole conversation leaves its reader nothing unread |
| Chat.GlobalUnreadAgrees | backend/src/modules/chat/message.service.ts:219-222 | The total over all conversations equals the sum of the filtered list |
| Chat.TotalOfShown | backend/src/modules/chat/message.service.ts:219-222 | The filtered list holds exactly the conversations with something unread and keeps the total |
| Chat.GlobalUnreadCountsMessages | backend/src/modules/chat/message.service.ts:198-222 | After any calls the global count is the number of messages from others after the read mark in the user's conversations, each once |
| Chat.MessageIsSent | backend/src/modules/chat/message.service.ts:37-92 | A participant's message is appended as SENT, by him and now; anybody else sends nothing |
| Chat.MessagesAreDelivered | backend/src/modules/chat/message.service.ts:160-171 | Exactly the SENT messages of others in the conversation become DELIVERED |
| Chat.MessagesAreRead | backend/src/modules/chat/message.service.ts:122-157 | Exactly the messages of others until now become READ and the reader's mark is set to now |
| Chat.MessagesAreReadUpTo | backend/src/modules/chat/message.service.ts:122-157 | Likewise up to a message of the conversation |
| Chat.MessageIsDeleted | backend/src/modules/chat/message.service.ts:174-196 | Only the sender or an administrator leaves a tombstone, with everything else in place |
| Chat.ParticipantJoins | backend/src/modules/chat/conversation.service.ts:53-62 | A participant row begins with nothing read, and there is one for each conversation |
| Chat.MessageService.Create | backend/src/modules/chat/message.service.ts:37-92 | A participant's message is appended as SENT; anybody else changes nothing |
| Chat.MessageService.Mark | backend/src/modules/chat/message.service.ts:122-157 | Read mark and statuses are updated together, or nothing and the error |
| Chat.MessageService.Delete | backend/src/modules/chat/message.service.ts:174-196 | Only the sender or an admin leaves a tombstone; the row stays |
| Chat.MessageService.Deliver | backend/src/modules/chat/message.service.ts:160-171 | Exactly the SENT messages of others become DELIVERED |
| Presence.AnnouncementsAlternate | backend/src/modules/chat/chat.gateway.ts:57-92 | Over any run the ONLINE and OFFLINE events of a user strictly alternate, starting with ONLINE, and the last one is what the registry says |
| Presence.PresenceIsLiveSocketsExactlyWhen | backend/src/modules/chat/chat.gateway.ts:57-92 | After any run the registry is exactly the live sockets of every user if and only if in no step of it a socket was registered that had already disconnected |
| Presence.DropWhileJoiningLeaks | backend/src/modules/chat/chat.gateway.ts:57-63 | A run in which a socket disconnects while joining its room is suspended, and is registered afterwards: its user is online without a live socket |
| Presence.LeakedStaysOnline | backend/src/modules/chat/presence.service.ts:29-39 | Such a socket is never removed, so its user stays online over every later run |
| Presence.LastSeenIsStamped | backend/src/modules/chat/presence.service.ts:29-39 | The last socket of a user to go stamps the time; nothing else touches anybody's |
| Presence.RunKeepsPresence | backend/src/modules/chat/chat.gateway.ts:57-92 | The invariant behind these: registry equals connected and leaked sockets, events alternate |
| Presence.JoinedKeepsPresence | backend/src/modules/chat/chat.gateway.ts:61-68 | It survives a socket being registered |
| Presence.DisconnectKeepsPresence | backend/src/modules/chat/chat.gateway.ts:82-92 | It survives a disconnect at any moment |
| Presence.PresenceService.AddSocket | backend/src/modules/chat/presence.service.ts:20-26 | The socket joins the user's set; true exactly for the first |
| Presence.PresenceService.RemoveSocket | backend/src/modules/chat/presence.service.ts:29-39 | The socket leaves the set; the last one removes the entry, stamps the time and returns true |
| Presence.PresenceService.LastSeen | backend/src/modules/chat/presence.service.ts:45-49 | Now while online, else the last stamp, else nothing |
| Presence.ChatGateway.FinishConnection | backend/src/modules/chat/chat.gateway.ts:63-68 | The socket is registered and the first one announces ONLINE |
| Presence.ChatGateway.HandleDisconnect | backend/src/modules/chat/chat.gateway.ts:82-92 | The socket is removed and the last one announces OFFLINE |
| Renewals.OneVisitMoreThanRenewals | backend/src/modules/subscriptions/renewal.service.ts:72-105 | After any run, plan changes included, a subscription has one visit more than renewals, in order of date, and the first renewal repeats the start date |
| Renewals.VisitsFollowTheSchedule | backend/src/modules/subscriptions/renewal.service.ts:75-96 | While no cycle changes, visits are the start followed by the dates from the start on, one cycle apart, and billing is one cycle after service |
| Renewals.InStepExactlyWhenCareful | backend/src/modules/subscriptions/subscriptions.service.ts:190-193 | All through any run billing is one cycle after service if and only if every plan change and plan edit happens to give the same date |
| Renewals.StepKeepsStepExactlyWhenCareful | backend/src/modules/subscriptions/subscriptions.service.ts:163-193 | The same for one call |
| RenewalExamples.CarefulInDates | backend/src/modules/subscriptions/subscriptions.service.ts:190-193 | On the civil calendar that means: the plan is changed on the very date of the next service, or one of the two dates runs over a short month into where the other leads; and an edit leaves the cycle alone or nobody has the plan |
| RenewalExamples.PlanChangeCanPutBillingOutOfStep | backend/src/modules/subscriptions/subscriptions.service.ts:190-193 | A run from an empty book: a plan changed a day after the start bills eight days and serves seven days from it |
| Renewals.RenewedVisitsLieInThePast | backend/src/modules/subscriptions/renewal.service.ts:75-83 | While billing is in step every renewal books its visit at least a day in the past |
| Renewals.VisitIsPastWheneverDueExactlyWhen | backend/src/modules/subscriptions/renewal.service.ts:61-83 | Whenever an active row comes due its renewal books the past, if and only if its service date is before its billing date |
| Renewals.AheadExactlyWhenKept | backend/src/modules/subscriptions/subscriptions.service.ts:190-193 | Service stays before billing for everybody, all through any run, if and only if every plan change puts the next bill after the next service and every renewal keeps the order of its two dates |
| Renewals.StepKeepsAheadExactlyWhen | backend/src/modules/subscriptions/renewal.service.ts:84-96 | The same for one call |
| RenewalExamples.EarlyPlanChangeCanRenewAhead | backend/src/modules/subscriptions/subscriptions.service.ts:190-193 | A run from an empty book: a plan changed before the subscription starts, and the renewal on day 7 books day 60 |
| Renewals.RenewedUntilNotDue | backend/src/modules/subscriptions/renewal.service.ts:61-114 | Repeated calls at one time move a row on cycle by cycle exactly until it is no longer due or the calls run out |
| Renewals.CallsCatchUpExactlyWhen | backend/src/modules/subscriptions/renewal.service.ts:61-114 | Enough calls at one time leave nothing due if and only if every customer with a due row has an address |
| Renewals.EndedIsFinal | backend/src/modules/subscriptions/enums/index.ts:28-29 | A cancelled or expired subscription is the same after every run |
| Renewals.ResumeUndoesPause | backend/src/modules/subscriptions/subscriptions.service.ts:92-133 | Pause then resume restores the subscription, so every cycle gone by meanwhile is due |
| Renewals.StatusMovesExactlyWhen | backend/src/modules/subscriptions/subscriptions.service.ts:92-160 | When each move is allowed, and that it changes the status and nothing else |
| Renewals.SubscriptionBeginsExactlyWhen | backend/src/modules/subscriptions/subscriptions.service.ts:47-84 | If and only if the plan is active and there is an address: active, a first visit and the next service at the start, the first bill a cycle later |
| Renewals.PlanIsChangedExactlyWhen | backend/src/modules/subscriptions/subscriptions.service.ts:163-193 | If and only if to another active plan while active or paused: the next bill a cycle from today, service untouched |
| Renewals.RenewalOutcome | backend/src/modules/subscriptions/renewal.service.ts:61-105 | A due row of a customer with an address books its service date and moves both dates one cycle, unless its transaction fails; every other row is as it was |
| Renewals.RunKeepsVisits | backend/src/modules/subscriptions/renewal.service.ts:72-105 | The count and order of visits survive every run |
| Renewals.PlainRunsKeepSchedule | backend/src/modules/subscriptions/renewal.service.ts:84-96 | The closed form of visits and dates survives every run without a change of cycle |
| Renewals.RenewalKeepsSchedule | backend/src/modules/subscriptions/renewal.service.ts:75-96 | One renewal keeps the closed form: visit and dates each one cycle further |
| Renewals.RowsMoveAlone | backend/src/modules/subscriptions/renewal.service.ts:72-111 | Calls treat every row by itself, and leave a row without an address alone |
| Renewals.Service.ProcessDueRenewals | backend/src/modules/subscriptions/renewal.service.ts:61-114 | In whatever order the due rows come, exactly those that do not fail move on one cycle with one visit, all others stay, and the count returned is right |
| Renewals.Service.CreateSubscription | backend/src/modules/subscriptions/subscriptions.service.ts:47-84 | An active subscription with its first visit and dates, or nothing and the error |
| Renewals.Service.MoveTo | backend/src/modules/subscriptions/subscriptions.service.ts:92-160 | Pause, resume and cancel along the machine, or nothing and the error |
| Renewals.Service.SwitchPlan | backend/src/modules/subscriptions/subscriptions.service.ts:163-193 | The plan changes and billing restarts from today, service untouched, or nothing and the error |
| CycleDates.DayOfMonthIsKeptExactlyWhen | backend/src/modules/subscriptions/enums/index.ts:40-57 | One cycle on, the time of day is kept, and the day of the month if and only if the month reached is long enough; otherwise the date runs over into the month after |
| CycleDates.EarlyDaysAreKept | backend/src/modules/subscriptions/enums/index.ts:40-57 | A day every month has is kept for ever |
| CycleDates.NextCycleAdvances | backend/src/modules/subscriptions/enums/index.ts:40-57 | Every cycle is at least seven days |
| CycleDates.NextDatesMeetExactlyWhen | backend/src/modules/subscriptions/enums/index.ts:40-57 | Two dates lead to the same next date if and only if they are the same or one, too late in its month, runs over to where the other leads |
| CycleDates.NextDatesKeepOrderExactlyWhen | backend/src/modules/subscriptions/enums/index.ts:40-57 | An earlier date leads to an earlier date if and only if it does not, too late in its month, run over to or past where the other leads |
| CycleDates.MonthEndCanMoveForGood | backend/src/modules/subscriptions/enums/index.ts:40-57 | A monthly date on the 31st that goes to the second of a month and stays on the second for ever |
| CycleDates.DifferentCyclesLeadToDifferentDates | backend/src/modules/subscriptions/enums/index.ts:40-57 | From one date, different cycles lead to different dates |
| CycleDates.CycleDatesAdvance | backend/src/modules/subscriptions/enums/index.ts:40-57 | So the dates meet what the renewal results ask of a calendar |
| Addresses.ExactlyOneDefault | backend/src/modules/addresses/addresses.service.ts:34-162 | After any run, whoever has a live address has exactly one default, a live one, and no deleted address is default |
| Addresses.CreateKeepsDefaults | backend/src/modules/addresses/addresses.service.ts:38-65 | Creating keeps that, first address or not, default asked for or not |
| Addresses.MakeDefaultKeepsDefaults | backend/src/modules/addresses/addresses.service.ts:92-116 | Making an owned address the default keeps that and makes it the one |
| Addresses.RemovalPassesOnTheDefault | backend/src/modules/addresses/addresses.service.ts:126-144 | Removing the default passes it to the newest live address, removing another leaves it where it was |
| Addresses.RunKeepsDefaults | backend/src/modules/addresses/addresses.service.ts:34-162 | The rule survives every run |
| Addresses.StepKeepsDefaults | backend/src/modules/addresses/addresses.service.ts:34-162 | The rule survives every call, accepted or refused |
| Addresses.AddressIsCreated | backend/src/modules/addresses/addresses.service.ts:38-65 | The new address is live and becomes the default if and only if asked for or the first; otherwise the default stays |
| Addresses.DefaultIsSet | backend/src/modules/addresses/addresses.service.ts:150-161 | An own live address asked for becomes the one default; any other request changes nothing |
| Addresses.AddressIsUpdated | backend/src/modules/addresses/addresses.service.ts:92-116 | An update moves the default here if it says so and never away |
| Addresses.AddressIsRemoved | backend/src/modules/addresses/addresses.service.ts:122-147 | The address is deleted, nobody else's rows are touched |
| Addresses.AddressesService.Unset | backend/src/modules/addresses/addresses.service.ts:44-47 | Exactly this customer's flags are cleared |
| Addresses.AddressesService.CreateAddress | backend/src/modules/addresses/addresses.service.ts:38-65 | The new address and the cleared flags |
| Addresses.AddressesService.UpdateAddress | backend/src/modules/addresses/addresses.service.ts:71-118 | Only an explicit true moves the default; a foreign or deleted address changes nothing |
| Addresses.AddressesService.SetDefaultAddress | backend/src/modules/addresses/addresses.service.ts:150-161 | The default moves, or nothing and the error |
| Addresses.AddressesService.RemoveAddress | backend/src/modules/addresses/addresses.service.ts:122-147 | The address is deleted and its default passed on, or nothing and the error |

## Left out

- Isolation between two server calls: each call is one serial step, although the code reads before its transaction.
- Page reloads and several tabs sharing one storage.
- Fairness of the network: a pending request always has a step of its own, and settles after three, but nothing makes the network take them.
- Several clients that share tokens: another holder of one of the client's tokens counts as another party.
- bcrypt, JWTs, webhook signatures: equality of secrets, or an argument that says who acts.
- A crash between a gateway call and the row update that follows it.
- JavaScript floating point and the rounding of amounts by two-decimal columns: amounts are exact reals, distances too; `PaymentRuns.PaiseRefundsAreExact` and `Revenue.RevenueIsConserved` say what holds on whole paise.
- Ranking.Dominance: on exact reals; how floating-point sums near a half point round is not modelled, nor is the haversine formula, distances being arguments.
- Changes of a zone's offset: `Scheduling` has a fixed offset, so a day has 24 hours; `Renewals` holds for any calendar whose cycles advance by a day.
- CycleDates.DayOfMonthIsKeptExactlyWhen: for dates from year 0 on, on a clock without changes of offset.
- Csv.CsvRoundTrip: the reader ends records at LF, as the writer does; RFC 4180 ends them at CRLF and would also quote a lone carriage return.
- Chat.RunKeepsReceipts: every call happens strictly later than the one before, so no message is created at the very instant of a read mark.
- Payments.SyncKeepsInv: the foreign key from payment to invoice is taken to hold; the guard for it in the model is not in the code.
- PaymentsService.Service.Intent: which of several open payments the query finds first is not fixed; the gateway's answer for it is the argument.
- Retries on a clashing invoice number, PDF and invoice export: no further property.
- Role scoping of reads, input validation, service-area coverage, prices and catalogue, warranties, cancellation fees, notifications, audit rows other than renewals.
- The radius test of a check-in is an argument; tracking, routes and arrival detection are not modelled.
- Weekly workload, workload summaries, reminders, `sendToTopic`, charts over time and utilisation: easy members.
- Soft deletion of bookings, technicians and users in the course of a run; the flags are part of the state and are respected.
- Presence.DropWhileJoiningLeaks: takes joining a room to suspend the handler long enough for a disconnect; with the in-memory adapter, the only one wired, it may not (a Redis adapter is described in `backend/src/modules/chat/chat.module.ts:5-25`).
- Attachments and message content; only that deletion leaves the row.
- Administrators' address endpoints, which do not keep the default rule.
- Visits booked by a subscription appear in `Renewals` as their start times and in `Dispatch` as unchecked bookings; the two tables are not joined.
- Spreadsheet and PDF exports, and the upload of the file.
