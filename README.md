# QMS Cherga queue core in Dafny

QMS Cherga is a walk-in queue system for offices, built on Frappe. A
visitor takes a ticket at a kiosk. The ticket gets a daily four-digit
number from a counter kept per office and per date. An operator at a
service point calls the next waiting ticket that matches their skills,
highest priority first and oldest first among equals. The operator then
serves the ticket, finishes it, marks it as a no-show, or puts it on hold
and later recalls it. A display board shows the latest calls and the
waiting queue. The kiosk shows the services an office offers, grouped by
category. Issuing a ticket, the kiosk menu and the board all depend on
the office's weekly schedule and its date-specific exceptions.

The model covers the server-side decision logic and the operator
dashboard's browser state:

- `common.dfy`: option and result types; JSON-like values with Python and
  JavaScript truthiness; `lastIndexOf`; decimal printing with `zfill`; a
  descending insertion sort, proved sorted, a permutation of its input and
  stable.
- `queue_data.dfy`: the ticket record, the directory of services, offices,
  points, operators and categories, and the `QueueDb` store of tickets and
  daily counters.
- `office_hours.dfy`: `is_office_open`, as a loop method proved against
  an independent "open at" predicate.
- `ticket_sequence.dfy`: the daily counter's bounded retry loop and
  `before_insert`.
- `issuance.dfy`: `create_live_queue_ticket`.
- `dispatch.dfy`: `call_next_visitor`.
- `display.dfy`: `get_display_data`.
- `kiosk.dfy`: `get_kiosk_services`.
- `operator_actions.dfy`: the five operator actions and the list of held
  tickets.
- `response.dfy`: the standard response builder.
- `dashboard_ui.dfy`: the operator dashboard's helpers, which controls it
  enables, and its `current_ticket` handling.

Some things outside the model become inputs:

- **The database.** Tickets and counters are maps in `QueueDb`. The other
  doctypes form a `Directory` value.
- **The clock and the zone conversion.** A map takes each zone name to the
  local date, weekday and second of the day. An instant `now` and the
  server's date string are also inputs.
- **The counter conflicts.** The outcome of each counter save (stored,
  collided with another worker's insert, or any other failure) is an input
  sequence.
- **The document name.** The name the framework assigns to a new ticket is
  an input.
- **The list queries.** The display board's lists of called and waiting
  tickets are inputs, in the query's order.
- **The browser's requests.** A dashboard request's outcome is the
  server's reply, or a failed request.

A raised error before the `try` of an endpoint is a `Rejected` or `Err`
outcome. An exception inside the `try` is an error reply, and the request's own
writes are rolled back; counter rows that other workers committed meanwhile
stay. Messages are English paraphrases of the source's texts.

## Model

| member | source | states |
|---|---|---|
| OfficeHours.ExceptionsOn | qms_cherga/api.py:73-82 | the exception rows fetched are exactly those of the local date |
| OfficeHours.RulesOn | qms_cherga/api.py:116-124 | the rules fetched are exactly those of the local weekday |
| OfficeHours.IsOfficeOpen | qms_cherga/api.py:14-151 | the loop's verdict equals `OfficeOpen`: closed without a schedule name; a non-workday exception closes the day; workday exceptions replace the rules; rules are OR-ed over half-open shifts; a failure closes; a bad zone falls back to the system zone |
| OfficeHours.OpenAt | qms_cherga/api.py:70-141 | the reference verdict the loop is proved against: with exceptions for the date, open iff all are workdays and one window covers the time; otherwise open iff a weekly shift covers it |
| OfficeHours.ResolveZone | qms_cherga/api.py:29-55 | definition: the office's zone when given and known, the system zone otherwise; `BadZoneFallsBack` states its effect |
| OfficeHours.OfficeOpen | qms_cherga/api.py:23-27 | the reference verdict of `is_office_open`: closed without a schedule name, otherwise `OpenAt` in the resolved zone |
| OfficeHours.NonWorkdayClosesDay | qms_cherga/api.py:84-90 | any non-workday exception for the date closes the office, whatever else the schedule says |
| OfficeHours.ExceptionsReplaceRules | qms_cherga/api.py:84-109 | when the date has exceptions, two schedules that share them agree whatever their weekly rules |
| OfficeHours.ShiftsAreOred | qms_cherga/api.py:127-141 | with readable rules, open iff some shift has start <= t < end |
| OfficeHours.ExceptionWindowsAreOred | qms_cherga/api.py:93-109 | with readable rows, open iff some workday exception with both times set covers t |
| OfficeHours.BadZoneFallsBack | qms_cherga/api.py:32-55 | an empty or unknown zone gives the same verdict as the system zone |
| OfficeHours.ShiftBoundaries | qms_cherga/tests/test_api.py:276-306 | a 09:00-13:00 shift is closed at 08:59:59 and at 13:00:00, and open at 09:00:00 and 12:59:59 |
| OfficeHours.LimitedHoursException | qms_cherga/tests/test_api.py:322-333 | a workday exception 11:00-12:00 opens at 11:30 and closes at 12:30 even though the full-day rule would open |
| TicketSequence.CounterKeyInjective | qms_cherga/qms_cherga/doctype/qms_ticket/qms_ticket.py:42-43 | with fixed-width dates, the counter name determines both the office and the date |
| TicketSequence.NextTicketSequence | qms_cherga/qms_cherga/doctype/qms_ticket/qms_ticket.py:32-102 | no office raises before any counter is touched; otherwise the result and the counters table are those of `Attempts` over the save outcomes |
| TicketSequence.ObtainedNumberIsStored | qms_cherga/qms_cherga/doctype/qms_ticket/qms_ticket.py:50-83 | a number obtained is exactly the value just written to the counter |
| TicketSequence.OtherCountersUntouched | qms_cherga/qms_cherga/doctype/qms_ticket/qms_ticket.py:42-83 | only the counter of this office and date changes |
| TicketSequence.ExhaustedOnlyAfterCollisions | qms_cherga/qms_cherga/doctype/qms_ticket/qms_ticket.py:85-102 | running out of attempts happens only when all five attempts collided |
| TicketSequence.CollisionsExhaust | qms_cherga/qms_cherga/doctype/qms_ticket/qms_ticket.py:85-102 | when every remaining attempt collides, the loop ends with the exhaustion error and no number |
| TicketSequence.FailureStopsAtOnce | qms_cherga/qms_cherga/doctype/qms_ticket/qms_ticket.py:90-95 | a failure other than a collision ends the loop at once with the counter error, and the outcomes after it do not matter |
| TicketSequence.LaterOutcomesIgnored | qms_cherga/qms_cherga/doctype/qms_ticket/qms_ticket.py:48 | only five attempts are made: outcomes from the sixth on never change the result or the counters |
| TicketSequence.Observed | qms_cherga/qms_cherga/doctype/qms_ticket/qms_ticket.py:85-89 | the counters as this worker last loaded them: only this office's counter for the date may differ, holding what another worker committed |
| TicketSequence.OnlyTheClaimIsWritten | qms_cherga/qms_cherga/doctype/qms_ticket/qms_ticket.py:64-83 | the loop's only own write is the number it obtains: on an error the counters are exactly what other workers committed |
| TicketSequence.Attempts | qms_cherga/qms_cherga/doctype/qms_ticket/qms_ticket.py:48-102 | definition of the retry loop over the outcomes: saved returns the claim and stores it, collided loads the other worker's value and retries, any other failure stops; its properties are the lemmas above and below |
| TicketSequence.CounterKey | qms_cherga/qms_cherga/doctype/qms_ticket/qms_ticket.py:43 | definition: `"{office}-{date}"`; `CounterKeyInjective` states what it guarantees |
| TicketSequence.TicketNumber | qms_cherga/qms_cherga/doctype/qms_ticket/qms_ticket.py:30 | definition: `str(n).zfill(4)`; `TicketNumberRoundTrip` and `TicketNumberInjective` state what it guarantees |
| Common.ZFill | qms_cherga/qms_cherga/doctype/qms_ticket/qms_ticket.py:30 | `zfill`: the width is the larger of the text's and the requested, the text is the suffix, and everything before it is `0` |
| TicketSequence.QuietAttempt | qms_cherga/qms_cherga/doctype/qms_ticket/qms_ticket.py:64-83 | without contention the first attempt returns the stored value plus 1, or 1 for a new counter, and stores it |
| TicketSequence.CollisionThenSave | qms_cherga/qms_cherga/doctype/qms_ticket/qms_ticket.py:85-89 | after a collision the retry reads the other worker's value and claims the next number |
| TicketSequence.QuietNumbersAreConsecutive | qms_cherga/qms_cherga/doctype/qms_ticket/qms_ticket.py:50-73 | successive uncontended calls for one office and date return base+1, base+2, and so on, and the counter ends at the last one |
| TicketSequence.TicketNumberRoundTrip | qms_cherga/qms_cherga/doctype/qms_ticket/qms_ticket.py:30 | `str(n).zfill(4)` is all digits, at least four long, exactly four below 10000, and parses back to n |
| TicketSequence.DecimalWidth | qms_cherga/qms_cherga/doctype/qms_ticket/qms_ticket.py:30 | the decimal form of n fits four digits iff n < 10000, so larger numbers are not truncated |
| TicketSequence.TicketNumberInjective | qms_cherga/qms_cherga/doctype/qms_ticket/qms_ticket.py:30 | different sequence numbers give different ticket numbers |
| TicketSequence.BeforeInsert | qms_cherga/qms_cherga/doctype/qms_ticket/qms_ticket.py:26-30 | a ticket that already has a number is left alone; otherwise it gets the zero-padded sequence number, or the counter error |
| Issuance.IssueGate | qms_cherga/api.py:169-223 | no error iff every issuing condition holds; each of the eight errors iff every check before it passes and its own fails, in the order missing parameter, unknown service, unknown office, disabled, not live-queue, not offered here, no schedule, closed |
| Issuance.Strip | qms_cherga/api.py:229 | removing `+` and `-` keeps exactly the other characters |
| Issuance.PhoneLooksValid | qms_cherga/api.py:229 | valid iff some character is neither `+` nor `-` and every such character is a decimal digit |
| Issuance.SpacedPhoneIsFlagged | qms_cherga/api.py:226-231 | a phone number containing a space fails the digit check |
| Issuance.FreshTicket | qms_cherga/api.py:236-246 | the new ticket is `Waiting` for the office and service, issued now, without operator or call time, and the phone is stored iff one was given |
| Issuance.CreateLiveQueueTicket | qms_cherga/api.py:158-287 | rejected iff a check fails, with that error, and nothing changes; a malformed phone only warns; on creation the ticket is numbered by the counter and stored under its name; a counter error or a taken name is `CreationFailed`, leaves the tickets as they were and rolls back this request's counter write, while counter rows other workers committed meanwhile stay |
| Issuance.IssueReply | qms_cherga/api.py:262-287 | success iff created, carrying the ticket's name and number |
| Dispatch.SelectNextTicket | qms_cherga/api.py:345-358 | nothing iff no ticket is eligible; otherwise an eligible ticket that no eligible ticket precedes in `priority desc, creation asc` order |
| Dispatch.ActiveOperator | qms_cherga/api.py:308-312 | the first active operator record of the user, or none iff there is no such record |
| Dispatch.CallGate | qms_cherga/api.py:302-340 | each error iff every check before it passes and its own fails, in the order guest, no active operator, no skills, unknown point, point without office; otherwise the point's office, the operator's skills and the point's name |
| Dispatch.CalledBy | qms_cherga/api.py:372-378 | the ticket becomes `Called` by this user at this point now, and no other field but `modified` changes |
| Dispatch.CallNextVisitor | qms_cherga/api.py:290-411 | a failed check is an error and changes nothing; an empty queue is `info` and changes nothing; otherwise exactly the picked ticket is called |
| Dispatch.EligibleNames | qms_cherga/api.py:345-351 | the set of tickets an operator could call |
| Dispatch.CallRemovesOnlyThePick | qms_cherga/api.py:364-378 | a call removes the picked ticket from every queue and leaves every other ticket as it was |
| Dispatch.PicksAreTies | qms_cherga/api.py:354 | two possible first picks tie on both priority and creation |
| Dispatch.CallReply | qms_cherga/api.py:358-401 | success iff a ticket was called, info iff the queue was empty; `ticket_info` sits at the top level and carries the ticket's name and status, and there is no `data` key |
| Dispatch.ServiceLabel | qms_cherga/api.py:368-369 | definition: the service's name, a fixed text without a service, and null for an id that names no service |
| Dispatch.TicketInfoJson | qms_cherga/api.py:385-400 | the `ticket_info` object names the ticket and its status |
| DisplayBoard.SplitLastPiece | qms_cherga/api.py:547-548 | `split('-')[-1]` is the text after the last `-` |
| DisplayBoard.ShortNumber | qms_cherga/api.py:547-551 | the shown number is the text after the last `-`, the whole number without a `-`, and the ticket's name when that is empty |
| DisplayBoard.Later | qms_cherga/api.py:495-496 | the larger of the times present, and none only when neither is present |
| DisplayBoard.DisplayTime | qms_cherga/api.py:486-500 | the corrected time (see "## Findings", api.py:486-491): the latest of the call, start and completion times present, or the modification time when none is |
| DisplayBoard.ReadTime | qms_cherga/api.py:486-491 | definition: `get_datetime` of a time field, the stored time or, for `None`, the clock reading |
| DisplayBoard.DisplayTimeAsWritten | qms_cherga/api.py:486-500 | as written, an absent time reads as the clock, so the shown time is the latest of the present times and the row's clock reading, and is one of them |
| DisplayBoard.RankedTopAsWritten | qms_cherga/api.py:464-515 | as written, the kept rows come from the fetched rows; pool, sort and cut as in `RankedTop`, keyed by the clocked display times |
| DisplayBoard.CalledLineAsWritten | qms_cherga/api.py:542-558 | definition: the board line of a kept row, its time being the clocked display time as `HH:MM` |
| DisplayBoard.CalledTicketReadsNowAsWritten | qms_cherga/api.py:486-500 | as written, a ticket that is only called shows the clock, while its recorded event time is its call time |
| DisplayBoard.BoardKeepsTheLastFetchedAsWritten | qms_cherga/api.py:464-558 | as written, with only-called tickets whose clock readings rise from row to row, the board keeps the first `limit` rows of the reversed pool, the least recently modified with the oldest first, and each line shows its own row's clock reading |
| DisplayBoard.BoardKeepsFetchOrderOnEqualReadsAsWritten | qms_cherga/api.py:464-558 | as written, when every only-called row reads the same clock value, the keys tie and the board keeps the first fetched rows in query order, each line showing that value |
| DisplayBoard.OlderCallShownAsWritten | qms_cherga/api.py:464-515 | A called before B, so B is fetched first and read first: with one line, the code shows A, while the corrected ranking shows B |
| Common.Reversed | qms_cherga/api.py:510-511 | the list back to front, element by element |
| Common.SortDescOfRisingKeys | qms_cherga/api.py:510-511 | a list whose keys strictly rise comes out of the sort reversed |
| DisplayBoard.PrefixOfSortedIsNewest | qms_cherga/api.py:510-515 | in a list sorted newest first, nothing past a cut is newer than anything before it |
| DisplayBoard.RankedTop | qms_cherga/api.py:464-515 | definition, ranking by the corrected `DisplayTime`: a pool of `max(20, 3 * limit)` rows sorted newest first and cut to the limit; `RankedTopIsNewest` states what it guarantees |
| Common.PyTake | qms_cherga/api.py:515 | Python `s[:n]`: a prefix of `s` whose length is `n` clipped to the list, counting from the end for a negative `n` |
| Common.SortDesc | qms_cherga/api.py:510-511 | the sorted list is a permutation of the input; `SortDescSorted` states that it is sorted newest first |
| Common.SortDescSorted | qms_cherga/api.py:510-511 | `sort(key=..., reverse=True)` leaves the list in non-increasing key order |
| Common.SortDescStable | qms_cherga/api.py:510-511 | the sort is stable: the rows sharing any one key keep their input order |
| Common.SortDescOfEqualKeys | qms_cherga/api.py:510-511 | a list whose keys are all equal is left as it is |
| Common.WithKeyAppend | qms_cherga/api.py:510-511 | the rows with a given key, taken from two lists in a row, are those of the first followed by those of the second |
| Common.InsertDescStable | qms_cherga/api.py:510-511 | inserting a row into a sorted list puts it after every row with its key, and keeps the others' order |
| DisplayBoard.RankedTopIsNewest | qms_cherga/api.py:464-515 | the kept called tickets are sorted newest first, come from the fetched pool, and no ticket left out is newer than one kept |
| DisplayBoard.TwoDigits | qms_cherga/api.py:557 | two decimal digits that parse back to the number |
| DisplayBoard.HhMm | qms_cherga/api.py:557 | `%H:%M` parses back to the hour and the minute of the time |
| DisplayBoard.WindowLabel | qms_cherga/api.py:554 | the point's display name, or "N/A" without a known point |
| DisplayBoard.FormatCalled | qms_cherga/api.py:542-558 | one board line per kept ticket, in order |
| DisplayBoard.FormatWaiting | qms_cherga/api.py:593-601 | one board line per waiting ticket, in order |
| DisplayBoard.GetDisplayData | qms_cherga/api.py:414-615 | an error without a known office; closed with no lists without a schedule or outside hours; when open, the called lines ranked by the corrected `DisplayTime` (see "## Findings") and the waiting lines |
| QueueData.ScheduleOf | qms_cherga/api.py:212-213 | definition: the office's schedule, else its organization's default, else none |
| KioskMenu.ActiveIds | qms_cherga/api.py:661-672 | a service is listed iff some active row of the office assigns it; order and repetition are fixed by `ActiveIdsFollowTable` and `ActiveIdsOfOneRow` |
| KioskMenu.ActiveIdsFollowTable | qms_cherga/api.py:661-672 | the ids of two consecutive stretches of rows are those of the first followed by those of the second, so the list keeps table order and repeats a service assigned twice |
| KioskMenu.ActiveIdsOfOneRow | qms_cherga/api.py:667-672 | one row contributes its service exactly when it is an active row of this office |
| KioskMenu.Groups | qms_cherga/api.py:727-732 | empty categories are dropped |
| KioskMenu.GetKioskServices | qms_cherga/api.py:619-737 | an error without a known office; closed without a schedule or outside hours; otherwise the groups in category-table order and the uncategorized services |
| KioskMenu.Bucket | qms_cherga/api.py:710-725 | each known category's bucket is its offered services in assignment order, and the rest go to no-category |
| KioskMenu.BucketStep | qms_cherga/api.py:710-725 | one turn of the loop keeps every bucket equal to its category's offered services so far, and the no-category list to the rest |
| KioskMenu.FilterStep | qms_cherga/api.py:710-725 | one more assignment adds at most its own item to one list |
| KioskMenu.CollectGroups | qms_cherga/api.py:727-732 | the loop over the category table builds exactly `Groups` |
| KioskMenu.CategoryNames | qms_cherga/api.py:689-702 | the names in the category table |
| KioskMenu.UncategorizedSound | qms_cherga/api.py:713-725 | everything listed without a category is an offered, assigned service |
| KioskMenu.InCategorySound | qms_cherga/api.py:713-723 | everything listed under a category is an offered, assigned service |
| KioskMenu.OfferedServicesListed | qms_cherga/api.py:710-725 | every offered service is listed, under its category when that is known and without one otherwise |
| KioskMenu.ListedUnderStep | qms_cherga/api.py:720-723 | one more assignment adds one to the category count exactly when it lands in a category |
| KioskMenu.MenuCountsEveryService | qms_cherga/api.py:710-732 | with distinct category names, the menu lists each offered assignment exactly once |
| KioskMenu.ListedUnderEmpty | qms_cherga/api.py:667-672 | no assignments, nothing listed |
| KioskMenu.GroupsFollowTable | qms_cherga/api.py:727-732 | every group carries the title of a category in the table |
| OperatorActions.DurationHundredths | qms_cherga/qms_cherga/page/operator_dashboard/operator_dashboard.py:226-232 | the duration in hundredths of a minute is within a third of a hundredth of seconds/60 |
| OperatorActions.DurationIsNearest | qms_cherga/qms_cherga/page/operator_dashboard/operator_dashboard.py:231-232 | `round(seconds / 60, 2)`: no other hundredth is closer |
| OperatorActions.Apply | qms_cherga/qms_cherga/page/operator_dashboard/operator_dashboard.py:164-166 | an action sets its target status and `modified`, and never changes the operator, the point, the number, the office, the service, the priority, the issue time or the phone; no-show and hold keep every time field; start sets the start time and keeps the others; finish sets the completion time and records a duration of 0 without a start and the rounded served minutes with one; recall sets the call time and clears the three service times |
| OperatorActions.Transition | qms_cherga/qms_cherga/page/operator_dashboard/operator_dashboard.py:150-162 | guest, then missing ticket, then not the caller's ticket, then wrong status, each iff its condition; otherwise the applied action |
| OperatorActions.StartServingTicket | qms_cherga/qms_cherga/page/operator_dashboard/operator_dashboard.py:144-198 | `Called` to `Serving` with the start time; on error nothing changes |
| OperatorActions.FinishServiceTicket | qms_cherga/qms_cherga/page/operator_dashboard/operator_dashboard.py:201-259 | the result is `Transition` and the table is `After` it: `Serving` to `Completed` with the completion time and the duration, 0 without a start (both through `Apply`'s ensures); on error nothing changes |
| OperatorActions.MarkNoShowTicket | qms_cherga/qms_cherga/page/operator_dashboard/operator_dashboard.py:262-307 | the result is `Transition` and the table is `After` it: `Called` or `Serving` to `NoShow` with every time field kept (through `Apply`'s ensures); on error nothing changes |
| OperatorActions.HoldTicket | qms_cherga/qms_cherga/page/operator_dashboard/operator_dashboard.py:310-352 | `Serving` to `Postponed`; on error nothing changes |
| OperatorActions.RecallTicket | qms_cherga/qms_cherga/page/operator_dashboard/operator_dashboard.py:400-476 | `Postponed` to `Called` with a new call time and the service times cleared; on error nothing changes |
| OperatorActions.FinalStatesAreFinal | qms_cherga/qms_cherga/page/operator_dashboard/operator_dashboard.py:160-162 | no action accepts a completed or no-show ticket |
| OperatorActions.OwnerAndPointKept | qms_cherga/qms_cherga/page/operator_dashboard/operator_dashboard.py:165-166 | no action, successful or not, changes any ticket's operator or point |
| OperatorActions.OwnershipBeforeStatus | qms_cherga/qms_cherga/page/operator_dashboard/operator_dashboard.py:214-218 | someone else's ticket is refused whatever its status |
| OperatorActions.HoldThenRecall | qms_cherga/qms_cherga/page/operator_dashboard/operator_dashboard.py:324-331 | hold then recall brings a served ticket back to `Called` with the new call time, no service times and the same operator |
| OperatorActions.RecordedDuration | qms_cherga/qms_cherga/page/operator_dashboard/operator_dashboard.py:221-232 | finishing records the completion time and a duration within rounding of the served seconds / 60 |
| OperatorActions.UnstartedDurationIsZero | qms_cherga/qms_cherga/page/operator_dashboard/operator_dashboard.py:226-232 | finishing a ticket that has no start time records the completion time and a duration of 0 |
| OperatorActions.NoShowKeepsTimes | qms_cherga/qms_cherga/page/operator_dashboard/operator_dashboard.py:276-286 | a no-show changes only the status and `modified`; every recorded time stays |
| OperatorActions.Allowed | qms_cherga/qms_cherga/page/operator_dashboard/operator_dashboard.py:276 | definition of the accepted statuses: `Called` or `Serving` for no-show (py:276), `Called` for start (py:160), `Serving` for finish and hold (py:216, py:324), `Postponed` for recall (py:420); `FinalStatesAreFinal` and `Transition` state their use |
| OperatorActions.HeldServiceName | qms_cherga/qms_cherga/page/operator_dashboard/operator_dashboard.py:392-394 | definition: the service's name when known, its id otherwise, "N/A" without a service |
| OperatorActions.TicketDict | qms_cherga/qms_cherga/page/operator_dashboard/operator_dashboard.py:176 | the ticket dictionary carries its name and status |
| OperatorActions.ActionReply | qms_cherga/qms_cherga/page/operator_dashboard/operator_dashboard.py:171-191 | success iff the action succeeded; start and recall return `ticket_info` at the top level, with the service and point names and their fallbacks; there is never a `data` key |
| OperatorActions.HeldAmong | qms_cherga/qms_cherga/page/operator_dashboard/operator_dashboard.py:366-371 | the caller's postponed tickets |
| OperatorActions.GetMyHeldTickets | qms_cherga/qms_cherga/page/operator_dashboard/operator_dashboard.py:356-397 | nothing for a guest; otherwise one entry for each of the caller's postponed tickets and nothing else, most recently modified first, with the service name falling back to the id and then to "N/A" |
| OperatorActions.InsertMembers | qms_cherga/qms_cherga/page/operator_dashboard/operator_dashboard.py:373 | inserting into the ordered list keeps the old entries and adds the new one |
| Response.HttpReply.constructor | qms_cherga/utils/response.py:19-20 | the HTTP status starts at 200 |
| Response.BuildResponse | qms_cherga/utils/response.py:4-21 | `status` always; `message` iff truthy; `data` iff not None; `error_code` iff truthy; `details` iff truthy in developer mode; the HTTP status is written |
| Response.SuccessResponse | qms_cherga/utils/response.py:24-26 | status "success", HTTP 200, no error code or details |
| Response.InfoResponse | qms_cherga/utils/response.py:39-41 | status "info", HTTP 200, no error code or details |
| Response.ErrorResponse | qms_cherga/utils/response.py:29-36 | status "error", no data, the given HTTP code (400 by default) |
| DashboardUi.ShortTicketNumber | qms_cherga/qms_cherga/page/operator_dashboard/operator_dashboard.js:22-27 | "N/A" for an empty number; otherwise a suffix of the number that is either the whole number or the non-empty text after the last `-` |
| Common.LastIndexOf | qms_cherga/qms_cherga/page/operator_dashboard/operator_dashboard.js:25-26 | `lastIndexOf`: -1 iff the character does not occur; otherwise an index holding it with no occurrence after it |
| DashboardUi.ShortNumbersAgree | qms_cherga/qms_cherga/page/operator_dashboard/operator_dashboard.js:22-27 | the dashboard and the board show the same short number unless the number is empty or ends in `-` |
| DashboardUi.ShortNumbersDifferOnTrailingDash | qms_cherga/qms_cherga/page/operator_dashboard/operator_dashboard.js:24-26 | for a number ending in `-`, the dashboard shows the whole number and the board shows the ticket's name |
| DashboardUi.StatusBadge | qms_cherga/qms_cherga/page/operator_dashboard/operator_dashboard.js:629-640 | the badge of each of the seven status strings, and "secondary" for any other value (weaker than the source for prototype names and non-strings, see "## Left out") |
| DashboardUi.BadgesTellStatusesApart | qms_cherga/qms_cherga/page/operator_dashboard/operator_dashboard.js:630-638 | the six statuses other than `Waiting` have pairwise different badges, none of them "secondary" |
| DashboardUi.ControlsFor | qms_cherga/qms_cherga/page/operator_dashboard/operator_dashboard.js:431-441 | the point selector is enabled iff there is no ticket; call-next only then; start and finish never together; hold goes with finish, transfer with no-show; no-show iff start or finish |
| DashboardUi.ControlsFollowServer | qms_cherga/qms_cherga/page/operator_dashboard/operator_dashboard.js:437-440 | for a held ticket, each action button is enabled exactly when the server accepts that action in the ticket's status |
| DashboardUi.OperatorLabel | qms_cherga/qms_cherga/page/operator_dashboard/operator_dashboard.js:444-457 | "Serving" iff finish is enabled, "Called" iff start is enabled, "Select Point" only when call-next is disabled |
| DashboardUi.TicketInfoAsWritten | qms_cherga/qms_cherga/page/operator_dashboard/operator_dashboard.js:225 | a reply without `data` yields no ticket |
| DashboardUi.TicketInfo | qms_cherga/api.py:385 | the reply's top-level `ticket_info` |
| DashboardUi.TicketAfterCallAsWritten | qms_cherga/qms_cherga/page/operator_dashboard/operator_dashboard.js:218-251 | anything but success clears the ticket |
| DashboardUi.TicketAfterCall | qms_cherga/qms_cherga/page/operator_dashboard/operator_dashboard.js:218-251 | anything but success clears the ticket; success takes the returned ticket |
| DashboardUi.CallNextLosesTicketAsWritten | qms_cherga/qms_cherga/page/operator_dashboard/operator_dashboard.js:225 | after a successful call, the dashboard as written holds no ticket |
| DashboardUi.CallNextKeepsTicket | qms_cherga/qms_cherga/page/operator_dashboard/operator_dashboard.js:225 | corrected, it holds the called ticket with its name and status |
| DashboardUi.TicketAfterRecallAsWritten | qms_cherga/qms_cherga/page/operator_dashboard/operator_dashboard.js:363-376 | a failed recall leaves the ticket as it was |
| DashboardUi.TicketAfterRecall | qms_cherga/qms_cherga/page/operator_dashboard/operator_dashboard.js:363-376 | a failed recall leaves the ticket; a successful one takes the returned ticket |
| DashboardUi.RecallLosesTicketAsWritten | qms_cherga/qms_cherga/page/operator_dashboard/operator_dashboard.js:369 | after a successful recall, the dashboard as written holds no ticket |
| DashboardUi.RecallKeepsTicket | qms_cherga/qms_cherga/page/operator_dashboard/operator_dashboard.js:369 | corrected, it holds the recalled ticket, `Called` again |
| DashboardUi.ActionEndpointAsWritten | qms_cherga/qms_cherga/page/operator_dashboard/operator_dashboard.js:298 | the requested method always ends in `_ticket` |
| DashboardUi.ActionEndpoint | qms_cherga/qms_cherga/page/operator_dashboard/operator_dashboard.py:262-263 | every action reaches a method the server has; only no-show differs from the written name |
| DashboardUi.EndpointsAreDistinct | qms_cherga/qms_cherga/page/operator_dashboard/operator_dashboard.js:298 | different actions reach different methods |
| DashboardUi.NoShowEndpointMissingAsWritten | qms_cherga/qms_cherga/page/operator_dashboard/operator_dashboard.js:298 | as written, a button reaches a server method iff it is not the no-show button |
| DashboardUi.Deliver | qms_cherga/qms_cherga/page/operator_dashboard/operator_dashboard.js:297-335 | a request to a missing method fails like a network error; otherwise the server's reply arrives |
| DashboardUi.WithStatusServing | qms_cherga/qms_cherga/page/operator_dashboard/operator_dashboard.js:315-316 | the ticket object with its status set to `Serving`; any other value is unchanged |
| DashboardUi.TicketAfterActionWith | qms_cherga/qms_cherga/page/operator_dashboard/operator_dashboard.js:301-335 | failure keeps the ticket; a successful finish, no-show or hold clears it |
| DashboardUi.StartKeepsStaleTicketAsWritten | qms_cherga/qms_cherga/page/operator_dashboard/operator_dashboard.js:314-316 | as written, after a start the dashboard keeps its old copy marked `Serving`, without the start time the server recorded |
| DashboardUi.StartReadsServerTicket | qms_cherga/qms_cherga/page/operator_dashboard/operator_dashboard.js:314-316 | corrected, it holds the server's copy with the start time |
| DashboardUi.NoShowKeepsTicketAsWritten | qms_cherga/qms_cherga/page/operator_dashboard/operator_dashboard.js:298-308 | as written, a no-show never clears the ticket, whatever the server would answer |
| DashboardUi.NoShowClearsTicket | qms_cherga/qms_cherga/page/operator_dashboard/operator_dashboard.js:306-308 | corrected, a no-show the server accepts clears the ticket |
| DashboardUi.FinalizedTicketStaysCurrent | qms_cherga/qms_cherga/page/operator_dashboard/operator_dashboard.js:166-195 | the "finished elsewhere" branch is never reached: its guard implies the first branch's, so the finished ticket is merged and stays current with the event's status, and call-next and the point selector stay disabled |
| DashboardUi.InitialDataReply | qms_cherga/qms_cherga/page/operator_dashboard/operator_dashboard.py:7-112 | the operator, the active ticket and the points sit at the top level, with an `error` text and nothing else on failure; there is no `status` and no `data` key |
| DashboardUi.InitialPoint | qms_cherga/qms_cherga/page/operator_dashboard/operator_dashboard.js:489-503 | the current ticket's point when it has one, else the only point, else none |
| DashboardUi.LoadedFrom | qms_cherga/qms_cherga/page/operator_dashboard/operator_dashboard.js:469-503 | the ticket and the points are those of the object read |
| DashboardUi.LoadAsWritten | qms_cherga/qms_cherga/page/operator_dashboard/operator_dashboard.js:463-543 | as written, the load succeeds exactly when the reply's `status` is "success", and then reads `data` |
| DashboardUi.Load | qms_cherga/qms_cherga/page/operator_dashboard/operator_dashboard.js:463-543 | the corrected load: it succeeds exactly when a reply arrives without an `error` text |
| DashboardUi.LoadFailsAsWritten | qms_cherga/qms_cherga/page/operator_dashboard/operator_dashboard.js:468 | as written, every reply of `get_initial_data` fails the load |
| DashboardUi.LoadRestoresTicket | qms_cherga/qms_cherga/page/operator_dashboard/operator_dashboard.js:469-503 | corrected, a reply without an error restores the active ticket and its point, or the only point, and offers the office's points |
| DashboardUi.LoadReportsError | qms_cherga/qms_cherga/page/operator_dashboard/operator_dashboard.py:14-17 | corrected, a reply with an error still fails the load |
| DashboardUi.QueueStatsReply | qms_cherga/qms_cherga/page/operator_dashboard/operator_dashboard.py:116-141 | "?" without an office, the two counts when they can be read, "Err" otherwise, at the top level; no `status` and no `data` key |
| DashboardUi.StatsShownAsWritten | qms_cherga/qms_cherga/page/operator_dashboard/operator_dashboard.js:594-625 | as written, anything but a `status` of "success" shows "!" twice |
| DashboardUi.StatsShown | qms_cherga/qms_cherga/page/operator_dashboard/operator_dashboard.js:594-625 | the corrected counters: the reply's `waiting` and `served_today`, or "!" when the request fails |
| DashboardUi.StatsShowErrorAsWritten | qms_cherga/qms_cherga/page/operator_dashboard/operator_dashboard.js:608 | as written, every reply of `get_queue_stats` shows "!" twice |
| DashboardUi.StatsShowCounts | qms_cherga/qms_cherga/page/operator_dashboard/operator_dashboard.py:136 | corrected, the counters show the counts the server read |
| DashboardUi.Merge | qms_cherga/qms_cherga/page/operator_dashboard/operator_dashboard.js:173 | `Object.assign`: the event's fields override the ticket's, and the others stay |
| DashboardUi.OperatorDashboard.constructor | qms_cherga/qms_cherga/page/operator_dashboard/operator_dashboard.js:40-53 | no ticket and no point to start with |
| DashboardUi.OperatorDashboard.LoadInitialData | qms_cherga/qms_cherga/page/operator_dashboard/operator_dashboard.js:463-543 | the corrected load (see "## Findings", js:468): the ticket and point are those of `Load`; a failed load changes neither |
| DashboardUi.OperatorDashboard.ChoosePoint | qms_cherga/qms_cherga/page/operator_dashboard/operator_dashboard.js:114-122 | the chosen point is stored, and with no ticket, call-next becomes enabled |
| DashboardUi.OperatorDashboard.HandleCallNext | qms_cherga/qms_cherga/page/operator_dashboard/operator_dashboard.js:200-259 | the corrected handler (see "## Findings", js:225): without a point nothing is requested and nothing changes; otherwise the ticket is `TicketAfterCall` of the reply, which reads the top-level `ticket_info`; the code as written is `TicketAfterCallAsWritten` |
| DashboardUi.OperatorDashboard.HandleAction | qms_cherga/qms_cherga/page/operator_dashboard/operator_dashboard.js:262-343 | the corrected handler (see "## Findings", js:298 and js:314-316): nothing is requested without a ticket or its name; otherwise the server's method for the action is requested (`mark_no_show` for no-show) and the ticket is `TicketAfterActionWith(..., false)`, which takes the server's copy after a start; the code as written is `ActionEndpointAsWritten` with `TicketAfterActionWith(..., true)` |
| DashboardUi.OperatorDashboard.HandleRecallTicket | qms_cherga/qms_cherga/page/operator_dashboard/operator_dashboard.js:346-389 | the corrected handler (see "## Findings", js:369): nothing is requested without a name or while a ticket is current; otherwise the ticket is `TicketAfterRecall` of the reply, which reads the top-level `ticket_info`; the code as written is `TicketAfterRecallAsWritten` |
| DashboardUi.OperatorDashboard.HandleRealtimeUpdate | qms_cherga/qms_cherga/page/operator_dashboard/operator_dashboard.js:142-196 | an event about the current ticket replaces it or merges into it; this user's call event sets it; the clearing branch is never taken; other events change nothing |

## Left out

- Persistence, `commit` and `rollback`. The store is a pair of maps. A rollback undoes this request's own writes; counter rows another worker committed meanwhile stay.
- `get_cached_doc`, `log_error`, `msgprint`, `log_warning` and the translation of messages. Messages are English paraphrases.
- TicketSequence.Attempts: a collision is logged with `frappe.log_warning` (qms_ticket.py:88) and then retried. The model assumes that this function exists and returns; the framework is not part of this model. If it did not exist, the handler would raise an `AttributeError` that the sibling `except Exception` does not catch, so the first collision would fail the insert and the retry (`CollisionThenSave`, `CollisionsExhaust`) would never be reached. The same call at api.py:40 would be caught by the `except Exception` there and give the system zone, which is the verdict the model gives.
- DashboardUi.StatusBadge: the lookup is on a plain object literal, so in the source a status naming an `Object.prototype` member (`constructor`, `toString`, `__proto__`) answers with that member, and a status that is not a string is first turned into one (a one-element list holding "Called" gives "info"). The model gives "secondary" for every value other than the seven status strings. The server sends only those strings.
- `publish_realtime` and the socket service. These are network transport; the dashboard's handling of received events is modelled.
- IANA zone conversion and `now_datetime`. Each zone's local date, weekday and second of day are inputs.
- The `time.sleep` backoff between counter attempts, and real concurrency. The outcome of each attempt is an input sequence.
- The first `QMSTicket` class in qms_ticket.py, lines 12-20. The second class, defined at line 23, replaces it.
- The database lookups behind `get_initial_data` and the counts behind `get_queue_stats`. Their results are inputs of the reply functions.
- `format_time` in the dashboard script: date formatting only.
- The office shown on the dashboard and the display texts set by `load_initial_data`. The model follows the ticket, the point and the selector's options.
- DisplayBoard.DisplayTimeAsWritten: each fetched row carries one clock reading, the latest taken for its absent fields, which is the only one the maximum can pick. The model counts whole seconds. The source reads microseconds afresh for each row, so its readings practically always rise from row to row, the case `BoardKeepsTheLastFetchedAsWritten` covers; readings that tie are covered by `BoardKeepsFetchOrderOnEqualReadsAsWritten`.
- `refresh_held_tickets` in the dashboard script. It reads `r.message.status`, but `get_my_held_tickets` returns a bare list, so the reply shape does not match there either. It is outside the modelled handlers.
- The statistics and held-list refreshes that the dashboard handlers trigger. The model follows only `current_ticket`.
- `handle_transfer`: it only shows a message.
- Permission filtering by `get_list`. The model's ticket query sees every ticket.
- The display board's "issued today" filters and its queries. Their results are inputs in query order.
- The board's error-row fallbacks, such as `{"ticket": "Error"}` when a query raises. These are database failures.
- OfficeHours.IsOfficeOpen: `get_time` on malformed stored times is not modelled character by character. A time field is either set, unset or unreadable.
- Issuance.PhoneLooksValid: Python's `str.isdigit` also accepts other Unicode digits, such as superscripts and Arabic-Indic digits. The model accepts only `0` to `9`, so such a phone number is flagged here but not by the source.
- OperatorActions.DurationHundredths: keeps the duration in exact hundredths of a minute, not a binary float, and takes seconds as whole numbers. For very large durations the source's float rounding can differ.
- DashboardUi.OperatorDashboard.HandleRealtimeUpdate: `Object.assign` mutates the shared ticket object in place. The model replaces the field's value, so aliasing with other references to that object is not captured.
- Dispatch.SelectNextTicket: when two waiting tickets tie on both priority and creation, the database's choice between them is not modelled. The method may return either one.
- Issuance.CreateLiveQueueTicket: the ticket's document name is an input, because the naming rule belongs to the framework.

### Where the code and its tests or design differ (the model follows the code)

The exceptions are the rows of "## Findings". The dashboard object
`OperatorDashboard` uses the corrected load, readers and endpoint, and
the display board ranks and shows the corrected `DisplayTime`. The code as
written is modelled by the `AsWritten` members beside them.


- An office that is closed makes `create_live_queue_ticket` raise. It does not return an error dictionary (api.py:217-219).
- A phone number that fails the check is still stored (api.py:229-246).
- The tests expect `call_next_visitor` to raise when the operator has no skills (tests/test_api.py:459). The code catches the error and returns an error reply (api.py:403-411).
- The tests expect the ticket name to start with `TKT-` and to equal its number (tests/test_api.py:358-366). `before_insert` writes only the four-digit sequence (qms_ticket.py:30).
- `mark_no_show` leaves every time field as it was. `recall_ticket` keeps the service point and the operator.
- `call_next_visitor` reads and then saves the ticket with no compare-and-swap (api.py:364-378). The model is sequential.
- An exception row whose start is midnight counts as unset, because `timedelta(0)` is false in Python (api.py:96). Such a row opens no window. The weekly rules have no such check.
- The tests expect an office with an invalid, `None` or empty zone to be closed (tests/test_api.py:335-340). The code falls back to the system zone (api.py:32-55), which `OfficeHours.BadZoneFallsBack` states.

## Findings

| source | as written | input that shows it | evidently intended | confidence | as-written member | corrected member |
|---|---|---|---|---|---|---|
| qms_cherga/qms_cherga/page/operator_dashboard/operator_dashboard.js:225 | after a successful call-next, the ticket is read from `r.message.data?.ticket_info`, but `call_next_visitor` returns `ticket_info` at the top level | any successful call: reply `{status: "success", ticket_info: {...}}` | the dashboard holds the called ticket; `OperatorDashboard.HandleCallNext` reads it this way | high, not executed | DashboardUi.CallNextLosesTicketAsWritten | DashboardUi.CallNextKeepsTicket |
| qms_cherga/qms_cherga/page/operator_dashboard/operator_dashboard.js:369 | after a successful recall, the ticket is read from `r.message.data?.ticket_info`, but `recall_ticket` returns it at the top level | any successful recall of a postponed ticket | the recalled ticket becomes current; `OperatorDashboard.HandleRecallTicket` reads it this way | high, not executed | DashboardUi.RecallLosesTicketAsWritten | DashboardUi.RecallKeepsTicket |
| qms_cherga/qms_cherga/page/operator_dashboard/operator_dashboard.js:314-316 | after a successful start, `data?.ticket_info` is missing, so the old copy is kept and only its status is set | start serving a called ticket without a start time | the dashboard holds the server's copy, with the start time; `OperatorDashboard.HandleAction` does so | high, not executed | DashboardUi.StartKeepsStaleTicketAsWritten | DashboardUi.StartReadsServerTicket |
| qms_cherga/qms_cherga/page/operator_dashboard/operator_dashboard.js:298 | the no-show button requests `mark_no_show_ticket`, which does not exist; the server method is `mark_no_show` (operator_dashboard.py:262-263) | press No-show on a called ticket | the ticket is marked as a no-show and cleared from the dashboard; `OperatorDashboard.HandleAction` requests `mark_no_show` | high, not executed | DashboardUi.NoShowKeepsTicketAsWritten | DashboardUi.NoShowClearsTicket |
| qms_cherga/api.py:486-491 | `get_datetime(None)` reads the clock afresh, so a ticket that is only called shows the moment its row was read instead of its call time, and the `modified` fallback is never reached; the readings rise in fetch order (`modified desc`), so the sort reverses the pool and the board keeps the least recently modified tickets, oldest first | limit 1; A called at 10:00 and B at 10:05, fetched as [B, A]: the board shows A, at the time of reading | each line shows its latest recorded event time and the newest calls are kept, here B; `GetDisplayData` ranks by `DisplayTime` | high, not executed | DisplayBoard.OlderCallShownAsWritten | DisplayBoard.DisplayTime |
| qms_cherga/qms_cherga/page/operator_dashboard/operator_dashboard.js:468 | `load_initial_data` requires `r.message.status === 'success'` and reads `r.message.data`, but `get_initial_data` returns neither key, so the load always fails: the buttons are disabled, the point selector stays empty and the active ticket is not restored | any dashboard load by an active operator | the ticket and the points are read from the top level of the reply; `OperatorDashboard.LoadInitialData` does so | high, not executed | DashboardUi.LoadFailsAsWritten | DashboardUi.LoadRestoresTicket |
| qms_cherga/qms_cherga/page/operator_dashboard/operator_dashboard.js:608 | `refresh_queue_stats` requires `status === 'success'`, but `get_queue_stats` returns only `waiting` and `served_today`, so the counters show "!" | any refresh once an office is known; as written the failed load never sets one, and the counters then show "?" without a request | the counters show the waiting and served counts | high, not executed | DashboardUi.StatsShowErrorAsWritten | DashboardUi.StatsShowCounts |
