# Tontine engine: a Dafny model

This project models the core of a rotating-savings ("tontine") API. A creator
opens a group that has a fixed contribution amount and a round length in days.
They add members by phone number and fix a turn order, either shuffled or drawn
at start. Starting activates the group. Each round, every member pays the
amount and the member holding that turn collects the pot. Closing a round moves
the group's round pointer on, or completes the group after the last turn.

The controllers record:

- payments, at most one per (group, user, round);
- fines (penalties), which can later be marked paid;
- an activity log, read back newest first.

Read-side reports show who has paid for the current round, who is late, the
debtors with their missed rounds, and a dashboard of totals over a user's
active groups.

The model has eight modules, one file each:

- `Domain` (`domain.dfy`): the schema's enumerations and rows, the error outcomes and their HTTP codes.
- `RoundClock` (`round_clock.dfy`): the round deadline, `days_left` and `is_overdue` accessors of the group model. Time is an integer count of seconds.
- `Ledger` (`ledger.dfy`): pure views of one group's data:
  - missed rounds, debts and unpaid fines;
  - the amount collected for a round;
  - the beneficiary of a turn;
  - what makes a turn order complete;
  - the log in newest-first order.
- `TontineModel` (`tontine.dfy`): the class `Tontine`, one group with everything stored against it. Its fields are updated in place, and `Valid()` is the invariant every action keeps.
- `TontineController` (`tontine_controller.dfy`): each action of the group controller, as a method or function over a `Tontine`.
- `ContributionController` (`contribution_controller.dfy`): the second payment-recording action and the contribution status view.
- `DashboardController` (`dashboard_controller.dfy`): the per-user dashboard, a loop accumulating totals over the active groups.
- `Scenarios` (`scenarios.dfy`): short action sequences showing what a later read sees of an earlier write.

Modelling choices:

- **Money** is an integer number of hundredths. The columns are `decimal(15,2)`, so `amount` validated with `min:1` is at least 100.
- **Group existence.** A deleted group is a `Tontine` whose `live` flag is false. Looking it up then fails:
  - actions that do not catch the exception answer 404 (`NotFound`);
  - the two status views catch it and answer 500 (`ServerError`).
- **Pivot order.** `roster` keeps the members in pivot-row insertion order, and the model takes this as the order the membership queries return them in (see "## Left out"). `members` maps each id to its role, status and turn order.
- **Start date.** `start_date` is a DATE column, so on MySQL or PostgreSQL a start stores midnight of the current day.
- **Inputs passed in.** The current time, the shuffled or randomly ordered member ids, the set of registered user ids and the phone directory are all parameters. Request strings such as `name` and `phone` are taken after Laravel's default middleware has trimmed them and turned empty strings into null, which the application keeps (bootstrap/app.php:15-17). So a name of only spaces arrives as null and fails `required` with 422, and `Store` asks for a non-empty name.
- **Penalty ids** are positions in the group's penalty list.

## Model

| member | source | states |
|---|---|---|
| Domain.HttpStatus | app/Http/Controllers/TontineController.php:135-138 | the status table: `Forbidden` 403, `NotFound` 404, `ServerError` 500, and 422 for `Invalid`, `AlreadyPaid` and `TooFewMembers`; the actions' own contracts say which error each case raises |
| RoundClock.TruncDiv | app/Models/Tontine.php:68 | PHP's `(int)` of a quotient, which truncates toward zero; `TruncDivBounds` proves it |
| RoundClock.TruncDivBounds | app/Models/Tontine.php:68 | the `(int)` of a quotient truncates toward zero: the result is the multiple of the divisor nearest the dividend on the side of zero |
| RoundClock.DayStart | app/Http/Controllers/TontineController.php:208 | the stored start date is the midnight at or before `now`, less than a day earlier |
| RoundClock.RoundDeadline | app/Models/Tontine.php:55-62 | the deadline is absent exactly when there is no start date or the group is not active |
| RoundClock.DeadlineAdvance | app/Models/Tontine.php:61 | moving the round pointer on by one moves the deadline by exactly `frequency_days` days |
| RoundClock.DeadlineMonotonic | app/Models/Tontine.php:61 | with a positive round length, a later round has a strictly later deadline |
| RoundClock.DaysLeft | app/Models/Tontine.php:64-69 | 0 without a deadline; otherwise the signed count of whole days to the deadline, truncated toward zero |
| TontineModel.Tontine.Deadline | app/Models/Tontine.php:55-62 | the group's current deadline from its stored columns; its properties are those of `RoundClock.RoundDeadline` |
| RoundClock.IsOverdue | app/Models/Tontine.php:71-76 | overdue only when a deadline exists |
| RoundClock.OverdueAgreesWithDaysLeft | app/Models/Tontine.php:64-76 | overdue implies no whole day left; a negative day count happens exactly when `now` is at least a day past the deadline |
| Ledger.Missed | app/Http/Controllers/TontineController.php:351-356 | a round is listed iff it lies in 1..n and has no payment from the user; the list is strictly ascending |
| Ledger.MissedEmptyIffAllPaid | app/Http/Controllers/TontineController.php:351-358 | nothing is missed iff every round 1..n has a payment from the user |
| Ledger.UnpaidTotalAppend | app/Http/Controllers/TontineController.php:399-405 | a new fine changes a member's unpaid total by that fine's share only |
| Ledger.UnpaidPenaltyTotal | app/Http/Controllers/TontineController.php:365 | the sum of the user's fines still unpaid; its changes are stated by `UnpaidTotalAppend` and `UnpaidTotalAfterPay` |
| Ledger.UnpaidTotalAfterPay | app/Http/Controllers/TontineController.php:431-435 | marking a fine paid removes exactly its share from its owner's unpaid total; re-paying changes nothing |
| Ledger.DebtorsAmong | app/Http/Controllers/TontineController.php:350-367 | each line is a listed user with their missed rounds (non-empty), debt = count × amount and their unpaid-fine sum; every user with a missed round appears |
| Ledger.DebtorListed | app/Http/Controllers/TontineController.php:350-367 | a user is reported iff they are a member and some round 1..current has no payment from them |
| Ledger.RoundSumRemove | app/Http/Controllers/DashboardController.php:37-39 | the SUM of a round does not depend on the order the rows are added |
| Ledger.RoundSumUniform | app/Http/Controllers/DashboardController.php:37-39 | when every payment carries the group amount, a round's SUM is amount × number of its payments |
| Ledger.PayersCoverUsers | app/Http/Controllers/DashboardController.php:37-44 | users who each paid a round are at most as many as that round's payments |
| Ledger.DistinctLength | app/Models/Tontine.php:50-53 | a duplicate-free list has as many distinct ids as entries |
| Ledger.RosterLength | app/Models/Tontine.php:50-53 | the pivot rows number as many as the members |
| Ledger.Beneficiary | app/Http/Controllers/TontineController.php:302 | a member in pivot order holding the turn; none exactly when no member holds it |
| Ledger.BeneficiaryFirst | app/Http/Controllers/TontineController.php:302 | no member holding the turn comes before the beneficiary in pivot order, as `first()` picks |
| Ledger.BeneficiaryDetermined | app/Http/Controllers/TontineController.php:302 | when no two members share an assigned turn, a member holds the turn exactly when they are the beneficiary, complete turn order or not |
| Ledger.ArrangementGivesBijection | app/Http/Controllers/TontineController.php:159-166 | numbering an ordering of the members 1..N gives every member one turn in 1..N, no two members the same turn, and no gap |
| Ledger.BeneficiaryUnique | app/Http/Controllers/ContributionController.php:95-97 | under a complete turn order every round 1..N has a beneficiary, and it is the one member holding that turn |
| Ledger.NewestFirst | app/Models/Tontine.php:104-107 | the log is shown in reverse order of appending |
| Ledger.LoggedEntryShownFirst | app/Http/Controllers/TontineController.php:532-535 | a newly logged entry is shown first, ahead of all earlier ones |
| TontineModel.Tontine.constructor | app/Http/Controllers/TontineController.php:79-95 | pending, round 1, order not defined and unlocked, late fee defaulting to 0, no start date, the creator alone attached as active admin with no turn |
| TontineModel.Tontine.MembersCount | app/Models/Tontine.php:50-53 | the member count is the number of pivot rows |
| TontineModel.Tontine.LogActivity | app/Models/Tontine.php:87-96 | appends exactly one entry stamped with the current round pointer; earlier entries unchanged |
| TontineModel.Tontine.Activate | app/Http/Controllers/TontineController.php:206-218 | active, start date set, round 1, locked, random only if the order was not defined; one start entry logged |
| TontineModel.Tontine.AssignTurnOrder | app/Http/Controllers/TontineController.php:163-165 | the k-th id of the ordering gets turn k + 1, role and status kept, and the turns form a bijection onto 1..N |
| TontineModel.Tontine.PaidForRound | app/Http/Controllers/DashboardController.php:37-39 | returns the SUM of the amounts recorded for the round |
| TontineController.Store | app/Http/Controllers/TontineController.php:69-98 | succeeds iff name is 1..255 characters, amount ≥ 1.00, frequency ≥ 1 and any late fee ≥ 0; the new group is in the initial state |
| TontineController.IsAdmin | app/Http/Controllers/TontineController.php:22-25 | the admin is the creator; the admin of an existing group is one of its members |
| TontineController.AddMember | app/Http/Controllers/TontineController.php:132-142 | non-creator 403 and unknown phone 404 change nothing; a new member is appended as pending member without a turn; an existing one keeps their turn but is reset to pending member |
| TontineController.ShuffleMembers | app/Http/Controllers/TontineController.php:154-170 | non-creator 403 changes nothing; otherwise turns 1..N are given in the shuffled order, a bijection, order random and locked, even if the order was already locked |
| TontineController.Start | app/Http/Controllers/TontineController.php:175-228 | 403 or fewer than 2 members (422) change nothing; otherwise active, round 1, locked, random only if not defined, turns redrawn only when unlocked and untouched when locked, one start entry; a second start is allowed |
| TontineController.RecordPayment | app/Http/Controllers/TontineController.php:233-284 | 403; unknown user or round < 1 is 422; an existing (user, round) is 422 and nothing changes; success exactly for a live group, the creator, a registered user, round ≥ 1 and no payment yet for (user, round), and then exactly one payment at the group amount and one payment entry; membership and an upper round bound are not checked |
| TontineController.GetPaymentStatus | app/Http/Controllers/TontineController.php:296-333 | 500 for a missing group; the round, deadline, days left, pot = amount × members, the first holder of the turn, and per member in pivot order has_paid iff a payment exists, is_late iff unpaid and overdue |
| TontineController.MissedRounds | app/Http/Controllers/TontineController.php:351-356 | the loop yields exactly the ascending unpaid rounds 1..current_turn |
| TontineController.StatusBeneficiaryIsHolder | app/Http/Controllers/TontineController.php:302 | in every valid state the payment status names as beneficiary exactly the member holding the current turn |
| TontineController.GetDebtors | app/Http/Controllers/TontineController.php:345-370 | 404 for a missing group, otherwise the debtors report over the members in pivot order (intended reading of line 353) |
| TontineController.DebtorsAsWrittenAlwaysFails | app/Http/Controllers/TontineController.php:353 | as written, the report of any existing group fails with 500 |
| TontineController.GetDebtorsAsWritten | app/Http/Controllers/TontineController.php:350-356 | the report as written: 404 for a missing group, 500 once the throwing payment check runs, an empty report only without a member or a round to check |
| TontineController.ApplyPenalty | app/Http/Controllers/TontineController.php:387-419 | 403 and unknown user change nothing; otherwise one new unpaid fine, by default the late fee, appended even when an equal one exists, adding its amount to the owner's unpaid total, and one penalty entry |
| TontineController.PayPenalty | app/Http/Controllers/TontineController.php:431-436 | any caller; unknown id is 404 and changes nothing; otherwise only that fine becomes paid, lowering its owner's unpaid total by its unpaid share |
| TontineController.Destroy | app/Http/Controllers/TontineController.php:449-457 | 403 changes nothing; otherwise the group, its memberships, payments, fines and log are gone |
| TontineController.CloseRound | app/Http/Controllers/TontineController.php:468-520 | 403 changes nothing; past the member count the group is completed with the pointer kept; otherwise the pointer moves on by exactly one, the deadline by one round length, and the log entry carries the next round and the outgoing beneficiary; the pointer never decreases; no lifecycle check |
| TontineController.GetHistory | app/Http/Controllers/TontineController.php:525-541 | 404 for a missing group, otherwise the log newest first |
| ContributionController.Store | app/Http/Controllers/ContributionController.php:34-67 | 403; unknown user or round < 1 is 422; a duplicate is 422 and leaves the payments unchanged; success exactly for a live group, the creator, a registered user, round ≥ 1 and no payment yet for (user, round), and then exactly one payment at the group amount and no log entry |
| ContributionController.GetStatus | app/Http/Controllers/ContributionController.php:79-140 | 500 for a missing group; the round, pot = amount × members, the first holder of the turn (none if no one holds it), has_paid per member in pivot order |
| ContributionController.StatusViewsAgree | app/Http/Controllers/ContributionController.php:91-115 | the two status views report the same round, pot, beneficiary and has_paid lines |
| DashboardController.ActiveGroups | app/Http/Controllers/DashboardController.php:18-21 | no more groups than the user's groups |
| DashboardController.ActiveGroupsSelect | app/Http/Controllers/DashboardController.php:18-21 | exactly the existing active groups the user belongs to are counted |
| DashboardController.Selected | app/Http/Controllers/DashboardController.php:18-19 | a group is shown when it exists, is active and the user is attached; `ActiveGroupsSelect` proves the selection is exactly these |
| DashboardController.Expected | app/Http/Controllers/DashboardController.php:33 | a group expects its amount from every member; `Totals` proves the loop sums it |
| DashboardController.ExpectedTotal | app/Http/Controllers/DashboardController.php:33-34 | what the first n groups expect together; `Totals` proves the loop's running total equals it |
| DashboardController.Collected | app/Http/Controllers/DashboardController.php:37-39 | the SUM of a group's payments for its current round; `PaidForRound` proves the loop equals it and `CollectedCountsPayments` ties it to the payment count |
| DashboardController.CollectedTotal | app/Http/Controllers/DashboardController.php:37-40 | what the first n groups collected for their current rounds together; `Totals` proves the loop's running total equals it |
| DashboardController.IsLate | app/Http/Controllers/DashboardController.php:44 | a group is late when its round is overdue and it collected less than expected; `FullyPaidNotLate` proves a fully paid group is not |
| DashboardController.CollectedCountsPayments | app/Http/Controllers/DashboardController.php:37-39 | a group's collected total is its amount × the payments of its current round |
| DashboardController.FullyPaidNotLate | app/Http/Controllers/DashboardController.php:44-46 | a group whose members have all paid the current round raises no alert |
| DashboardController.LateCount | app/Http/Controllers/DashboardController.php:44-46 | alerts number at most the groups looked at; 0 exactly when none is late, and all of them exactly when every one is |
| DashboardController.RoundHalfAwayBounds | app/Http/Controllers/DashboardController.php:53 | the rounded quotient lies within half a unit, a half going away from zero |
| DashboardController.RecoveryRateBounds | app/Http/Controllers/DashboardController.php:52-54 | while no more than expected was collected the rate is in 0..100: 100 when all was collected, 0 when nothing was |
| DashboardController.RoundHalfAway | app/Http/Controllers/DashboardController.php:53 | PHP `round` of a quotient; `RoundHalfAwayBounds` proves it within half a unit with halves away from zero |
| DashboardController.RecoveryRate | app/Http/Controllers/DashboardController.php:52-54 | 0 when nothing is expected, otherwise the rounded percentage; `RecoveryRateBounds` proves it in 0..100 |
| DashboardController.Totals | app/Http/Controllers/DashboardController.php:23-47 | the loop yields Σ amount × members, Σ the current-round SUMs, and the number of overdue groups not fully paid |
| DashboardController.Index | app/Http/Controllers/DashboardController.php:12-73 | alerts ≤ active groups; total to collect = (int)(expected − paid); recovery rate; at most 5 groups listed, the first ones in query order |
| Scenarios.RecordThenStatus | app/Http/Controllers/TontineController.php:305-315 | recording the current round succeeds exactly for a live group, the creator, a registered user and no payment yet; after a successful payment for the current round, both status views show the member as paid and not late |
| Scenarios.PayPenaltyTwice | app/Http/Controllers/TontineController.php:431-435 | paying a fine twice answers the same and leaves the same list as paying once |
| Scenarios.StartThenClock | app/Http/Controllers/TontineController.php:206-212 | right after a start the deadline is one round length after the start day, not overdue, with at least `frequency_days` − 1 whole days left |
| Scenarios.CloseTwice | app/Http/Controllers/TontineController.php:476-503 | two closes move the pointer forward by at most two; once completed, a close completes again and keeps the pointer |

## Left out

- Authentication is not modelled: Sanctum tokens, the login and register actions, and the contact list. The caller is a plain user-id parameter.
- Routing is not modelled. routes/api.php has no route to the contribution and dashboard controllers. The application also loads routes/web.php and routes/console.php, which are not part of this model, so it is open whether the two controllers can be reached. They are modelled all the same.
- Row order is not modelled. None of the membership queries has an ORDER BY, so the database decides the row order. The model assumes pivot-row insertion order (`roster`). That assumption fixes the order of the member lines in both status views, the order of the debtors report, and which holder `first()` picks when two members hold the same turn. `TurnsDistinct` in the group invariant rules that last case out for every state the actions reach.
- The routing file names `removeMember`, `transferAdmin` and `updateMemberOrder`. The controller does not define them, so there is nothing to model.
- The group controller's `index` and `show` are plain listing queries and are not modelled.
- JSON response shapes, user names and phones in the responses, history description texts and debug logging are not modelled.
- Database transactions are not modelled. The model is sequential and each action on a group is atomic by construction.
- `current_turn ?? 1` is modelled as `current_turn`. The column is NOT NULL with default 1 and every write sets it, so the fallback never applies.
- Randomness is not modelled. `shuffle()` and `inRandomOrder()` become an ordering parameter that must list each member exactly once.
- Floating point is not modelled:
  - amounts are integer hundredths, so sub-cent input is not modelled;
  - the recovery rate is the exactly rounded percentage, so binary floating-point error at exact halves is not modelled.
- Penalty ids are positions in one group's penalty list; the database uses global ids. The penalties table's migration is not part of this model, so deleting a group is taken to delete its fines as it deletes its payments and log.
- Row timestamps are not modelled. The newest-first order uses the order of appending, so two log rows written in the same second are not told apart.
- `start_date` is cast to a datetime and compared to the full current time. The model keeps the stored midnight and integer seconds; time zones are not modelled.
- Column widths are not modelled: they depend on the database. `amount` and `late_fee` are `decimal(15,2)`, and `frequency_days`, `current_turn` and `round_number` are INT columns. No validation rule bounds them from above, so on a strict MySQL store an amount of 10^13 or a round of 2^31 passes validation and then the insert fails with 500. `TontineController.Store`, `RecordPayment`, `ContributionController.Store` and `ApplyPenalty` succeed on such inputs in the model.
- The start date is database-dependent and only the DATE-column behaviour is modelled. SQLite keeps the written date-time string, so there the deadline keeps the time of day of the start rather than midnight.
- Users are not deleted while a group exists, so cascading user deletion is not modelled.
- DashboardController.ActiveGroups: its own contract only bounds the length; which groups it selects is proved separately in `ActiveGroupsSelect`.

## Findings

| source | as written | input that shows it | evidently intended | confidence | as-written member | corrected member |
|---|---|---|---|---|---|---|
| app/Http/Controllers/TontineController.php:353 | the payment check calls `exists()` on the already loaded payment collection. In-memory collections have no such method, so the call throws and the debtors request answers 500. | any existing group, e.g. one just created: its creator is a member and `current_turn` is 1, so the check runs at least once | a round counts as missed when the group has no payment from that user for it | not executed; high | TontineController.DebtorsAsWrittenAlwaysFails | TontineController.GetDebtors |
