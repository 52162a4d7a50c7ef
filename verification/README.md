# Verification of gwz-py

A Dafny model of the parts of gwz-py where several threads, processes or encodings have to
agree, with proofs of what they agree on. It is checked with `dafny verify dfyconfig.toml`.

## What is modelled

**A Client's network operations** (`HostState`, `HostProtocol`, `HostLedger`, `HostClosing`,
`HostCancelling`, `HostCalls`, `HostWakeups`, `HostRuns`, `HostReplies`, `HostTurns`, `HostOperations`). `HostState` holds
each critical section of the host's one lock as a function. `HostProtocol` is the transition
system of any number of tickets, cancels and closes over it: the condition variable is the set
of sleeping threads and the notifications still owed, a deadline is a free choice, and a sleeper
may wake without cause. `HostRuns` proves what every run guarantees. `HostOperations` is the
object with the same fields, its methods proved against the same functions. Serial numbers,
the slot count and the totals are unbounded integers. `HostReplies` tells what a
cancel returns, `HostTurns` what each turn under the lock decides and leaves behind, and `CloseReports` the report that the Python client keeps.

**Operation records** (`RecordState`, `RecordWakeups`, `RecordStore`, `RecordObjects`). One record
with its competing terminal writers and its readers, and the condition variable its readers sleep
on; the store that maps IDs to records, with counted recorders whose last drop ends an abandoned
record; and both as objects.

**Requests** (`Submissions`, `Settlement`, `RequestRuns`, `RequestAnswers`). The host and the store
composed: submits and calls, ordinary and merge, each with its threads' places and every point at
which it can fail. A handler delivers any events and answers with a response or a failure, or breaks
off; what is then written of its answer is modelled path by path.

**Readers** (`EventReader`, `OutputReader`). The cursor loops of an event subscription, of a
commit log's output and of a diff's output, against a log that grows or expires meanwhile.

**Dates** (`Calendar`, `CommitDate`). Day numbers to proleptic Gregorian dates over all
integers (the leap-year rule of Appendix C of RFC 3339), and the printed form with a reader of
it. Floor division by positive constants is Dafny's.

**Structure-preserving transformations.** `Codec`, `CodecRoundTrip`, `CodecWire` and `CodecSpellings`:
messages to and from their wire form. `SchemaItems`, `SchemaProjection`, `SchemaExactness`, `SchemaHistory` and
`SchemaTables`: the schema projection that strips listed additions, with the tables as data. `MetaRewrite`: the
request rewrites that keep two copies of the metadata equal. `CommandLine`: the scan for the
command, its path specifications and its single-use options.

## Where the code and its documentation differ

- `src/gwz/bridge.py:246-251` says that every later close returns the close's report. The client
  keeps the first report any of its closes brings back, and a close whose own bound passes before
  the host has published one brings back an interim figure; `CloseReports.AnInterimFigureMayBeKept`
  is a run in which the two differ for good, and `CloseReports.KeptIsTheHostsReportJustWhen` gives
  the exact condition under which they are the same.
- A live record has a recorder except between its last recorder's going and the write of that
  recorder's drop; `RecordStore.LastDropLeavesALiveRecord` shows the gap, and
  `RecordStore.LiveRecordHasARecorder` that it is the only one.
- An enum's name and number decode to one member even when numbers repeat, since the members then
  are one object; a name's own member is found exactly under `CodecRoundTrip.DecodedUnderOwnName`'s
  condition.

## Model

| member | source | states |
|---|---|---|
| HostRuns.SlotsAreCounted | native/src/client_host/operations.rs:343-404 | in every reachable state of any interleaving, the slot count is the number of admitted un-ended tickets and of live entries marked running, lies between 0 and 8, and is positive whenever a ticket that holds a slot has yet to end, so its decrement never underflows |
| HostRuns.TicketsAreLiveOperations | native/src/client_host/operations.rs:156-192 | un-ended tickets and live entries correspond one to one by ID and serial number, and an entry is marked running exactly when its ticket was admitted |
| HostRuns.EachTicketEndsOnce | native/src/client_host/operations.rs:379-413 | a ticket has ended exactly when the run's history holds its end, and holds it once, whatever `finish` and drops came |
| HostRuns.RecordHoldsTheLast | native/src/client_host/operations.rs:391-399 | the record of completed cancellations is always the last 64 of the whole run's, oldest first |
| HostRuns.NobodySleepsInVain | native/src/client_host/operations.rs:343-404 | when no notification is on its way, every sleeping `admit` finds 8 running, no close begun and no cancel of it; every sleeping `cancel` finds its registration live; every sleeping close finds what it waits for missing |
| HostRuns.WakingIsOneStepAway | native/src/client_host/operations.rs:199-298 | a sleeper whose wait is over always has an enabled step that notifies (after an end, a cancel, the start of a close or the publication of its report) after which no such sleeper is left, although the notification comes after the lock is dropped |
| HostRuns.NotifierOf | native/src/client_host/operations.rs:199-298 | an owed notification belongs to a thread that can give it now, and its notifying step leaves nobody asleep who could go on |
| HostRuns.CancelAnswersForItsOwnRegistration | native/src/client_host/operations.rs:199-242 | an answered cancel returns the report of the very registration it reached, never of a later one under the same ID: exactly when that one left a report and fewer than 64 later cancelled ones did, and otherwise the unfinished report |
| HostRuns.RefusedCancelChangesNothing | native/src/client_host/operations.rs:199-232 | a cancel is refused exactly when the ID is not live or is running without a canceller, and then nothing but the caller's place changes; otherwise only that entry's cancelled mark does |
| HostRuns.CancelledWaitingIsNeverAdmitted | native/src/client_host/operations.rs:210-223 | once a cancel has taken the waiting branch, its registration is admitted in no continuation of the run, nor ends as an admitted one |
| HostReplies.CancelIsDecidedOnEntry | native/src/client_host/operations.rs:199-242 | over any run, what a cancel returns is decided by the host at its entry: an error exactly when the ID is not live or runs without a canceller, and (0, unconfirmed) for a waiting operation; for a running one (1, unconfirmed) if its bound passed in a turn that still found the registration live, and otherwise the report of that very registration's end exactly when it left one and fewer than 64 later cancelled operations had reported by that turn, and (1, unconfirmed) if not |
| HostReplies.EntryDecidesRoute | native/src/client_host/operations.rs:199-228 | the first critical section alone decides which way a cancel goes on |
| HostReplies.AnsweringTurn | native/src/client_host/operations.rs:229-242 | a cancel that waited gave its answer in one turn after its entry: the one that found its registration gone, or found it live with the bound passed |
| HostTurns.RegistrationTurn | native/src/client_host/operations.rs:156-192 | a registration is refused exactly while the host is closing or the ID is live, and otherwise adds one waiting entry with its canceller under the next serial number, and nothing else |
| HostTurns.NoThreadIsStuck | native/src/client_host/operations.rs:199-299 | every ticket, cancel and close that has not come to its end has a step it can take, and one that sleeps can be woken |
| HostTurns.AdmissionTurn | native/src/client_host/operations.rs:343-369 | in every reachable state a turn of admission refuses exactly when the host is closing or the registration is cancelled, and otherwise admits with fewer than 8 running and puts to sleep with 8; only an admission changes the host |
| HostTurns.RefusedForCause | native/src/client_host/operations.rs:348-358 | in every run a ticket that was refused belongs to a closing host or to a registration marked as cancelled |
| HostTurns.EndIsRecorded | native/src/client_host/operations.rs:379-404 | an end takes out the registration, frees the slot if it held one, and goes into the history with the report it left and whether it had been cancelled |
| HostTurns.DropEndsOnce | native/src/client_host/operations.rs:379-413 | a drop ends a ticket that has not ended, with no report, and leaves the host of one that has as it is |
| HostTurns.CancelTurn | native/src/client_host/operations.rs:229-242 | a turn of a cancel's wait sleeps exactly while the registration is live and the bound has not passed, gives up exactly when it is live and the bound has passed, and answers exactly when it is gone |
| HostTurns.CancelCallsBeforeItWaits | native/src/client_host/operations.rs:226-229 | in every run the canceller of the operation a cancel waits for has been called |
| HostTurns.FirstCloseTurn | native/src/client_host/operations.rs:287-299 | over runs, a turn of the first close publishes when nothing is live or its bound has passed, and then the report of every end so far and one job for each live operation; otherwise it sleeps |
| HostTurns.LaterCloseTurn | native/src/client_host/operations.rs:254-275 | over runs, a turn of a later close comes back when there is a report and, at exit, nothing is live, or when its bound has passed; with the published report, or an interim figure if there is none; otherwise it sleeps |
| HostTurns.ExitCloseLeavesNothing | native/src/client_host/operations.rs:244-275 | a later close at interpreter exit whose bound did not pass leaves no operation live and every ticket ended, from then on in the whole run |
| HostTurns.FirstCloseReportsAll | native/src/client_host/operations.rs:276-299 | a first close whose bound did not pass reports every operation there ever is in the run, none of them unfinished |
| HostTurns.FlagsTellTheCloses | native/src/client_host/operations.rs:252-276 | in every run the host is closing exactly when some close has entered, and exiting exactly when one at interpreter exit has |
| HostRuns.CallsReachAdmittedOperations | native/src/client_host/operations.rs:278-289 | only cancellers of admitted operations are ever called, and by the time the first close waits, every running operation's canceller has been |
| HostRuns.ReportIsConserved | native/src/client_host/operations.rs:100-121 | the published report's pending work is the sum over all reports that ended before it plus one per operation then live; peer cleanup is confirmed exactly when some report confirmed it, none left it unconfirmed and nothing was live |
| HostRuns.ClosesAgree | native/src/client_host/operations.rs:250-298 | a close that did not return an interim figure returned the host's one report |
| HostRuns.ReportNeverChanges | native/src/client_host/operations.rs:290-298 | once published the report is the same in every later state, whatever ends or closes after, and every later non-interim close returns it |
| HostRuns.ClosingOnlyDrains | native/src/client_host/operations.rs:250-298 | after a close has begun nothing registers, nothing is admitted, and the number of live operations falls by exactly one with each end: a termination measure for the drain |
| HostRuns.HookGoesWithAnIdleClose | native/src/client_host.rs:176-190 | in every run the exit hook is gone if and only if some close that Python called has come back to find nothing live, and from then on the host is closing with nothing live in every state |
| HostRuns.UnhookedStaysIdle | native/src/client_host.rs:176-190 | whenever the exit hook has been unregistered, the host is closing with no live operation in that and every later state |
| HostRuns.ExitingIsClosing | native/src/client_host/operations.rs:250-256 | a close at exit is a close, and neither mark is ever taken back |
| HostRuns.RunIsLater | native/src/client_host/operations.rs:124-305 | across any stretch of a run the history of ends only grows, replies stay, the report stays, and closing only drains |
| HostRuns.ReachableIsInvariant | native/src/client_host/operations.rs:124-413 | the whole invariant of ledger, close, cancels, calls and wake-ups holds in every reachable state |
| HostCancelling.RecordKeepsLast | native/src/client_host/operations.rs:314-320 | searching the bounded record from the back for the k-th ended registration finds its report exactly when it left one as a cancelled operation and fewer than the bound did after it |
| HostCancelling.EndedAnswers | native/src/client_host/operations.rs:230-235 | what a waiting cancel may answer once its registration is gone is what the history of ends calls for |
| HostClosing.TotalsCount | native/src/client_host/operations.rs:100-121 | the running aggregate, a count and a sum, determines the pending total and both confirmation questions over all reports ever added |
| HostClosing.StepKeepsClosing | native/src/client_host/operations.rs:250-298 | every step keeps exactly one first close until its report is published, every entry cancelled once closing, and every kept reply fitting the report |
| HostCalls.StepKeepsCalls | native/src/client_host/operations.rs:278-289 | every step keeps each running operation's canceller either called or among those the first close still has to call |
| HostWakeups.StepKeepsWakeups | native/src/client_host/operations.rs:199-404 | every step keeps: if some thread sleeps although it need not, a notification is owed |
| HostLedger.StepKeepsLedger | native/src/client_host/operations.rs:156-413 | every step keeps tickets, live entries, slot count, history and totals in agreement |
| HostOperations.ReachableHostIsValid | native/src/client_host/operations.rs:59-82 | what the object's methods rely on holds of the shared state in every run |
| HostOperations.Operations.Register | native/src/client_host/operations.rs:156-192 | refuses exactly while closing or the ID is live, changing nothing; otherwise adds one waiting entry under a new serial number and hands out its ticket |
| HostOperations.Operations.EnterCancel | native/src/client_host/operations.rs:199-228 | the first critical section of a cancel: tells the waiting branch from the running one, marks only those, and leaves a refused one's state alone |
| HostOperations.Operations.ObserveEnd | native/src/client_host/operations.rs:230-235 | the backwards search of the record answers what the specification's search does, or that the registration is still live |
| HostOperations.Operations.BeginClose | native/src/client_host/operations.rs:250-284 | marks exiting, and for the first close only marks every live operation and collects exactly the running ones' cancellers |
| HostOperations.Operations.MarkAll | native/src/client_host/operations.rs:278-284 | the loop over live entries marks each of them and collects exactly the cancellers of the running ones |
| HostOperations.Operations.Publish | native/src/client_host/operations.rs:294-297 | publishes the aggregate with one pending job for each live operation |
| HostOperations.Operations.LaterTurn | native/src/client_host/operations.rs:259-275 | one turn of a later close: it may return exactly when there is a report and, at exit, nothing is live; its figure is the report or an interim one, told from the totals and the live operations |
| HostOperations.Operations.RecordCancellation | native/src/client_host/operations.rs:395-399 | appends to the record and lets its oldest go when it is full, so that it never exceeds 64 |
| HostOperations.Operations.Unregister | native/src/client_host/operations.rs:383-387 | takes an entry out only under its own serial number, and tells whether it was cancelled |
| HostOperations.ClientHost.UnhookIfIdle | native/src/client_host.rs:179-188 | takes the exit hook away just when no operation is live |
| HostOperations.Ticket.TryAdmit | native/src/client_host/operations.rs:343-369 | one turn of admission on the fields: refused exactly when the registration is gone or cancelled or the host closing, admitted exactly when it is not and fewer than 8 run, taking one slot; otherwise nothing changes |
| HostOperations.Ticket.End | native/src/client_host/operations.rs:379-404 | frees the ID and, if held, the slot; adds a report into the aggregate and, for a cancelled operation, into the record; tells whether the host has closed at exit |
| HostOperations.Ticket.Drop | native/src/client_host/operations.rs:407-413 | ends a ticket that `finish` did not, with no report, and leaves a finished one alone |
| CloseReports.KeptIsTheHostsReportJustWhen | src/gwz/bridge.py:246-272 | over any run and any order of returning closes, what the client keeps is the host's report if and only if the first close to return brought no interim figure, or one that stands: the operations that ended between its being taken and the publication left as many jobs as there are of them, and the report does not confirm what the figure could not |
| CloseReports.InterimIsTheReportJustWhen | native/src/client_host/operations.rs:266-298 | the figure that a closing host without a report would give equals its later report under exactly that condition on the ends in between |
| CloseReports.InterimOnlyAfterTimeout | native/src/client_host/operations.rs:256-274 | in every run, each interim figure was taken by that later close's own turn, its bound passed, while the host was closing with no report published |
| CloseReports.PublishedBetween | native/src/client_host/operations.rs:290-297 | the report is fixed at one moment, after every end that a state without a report has seen |
| CloseReports.Bridge.KeepInTurn | src/gwz/bridge.py:246-272 | closes that return one after another all return what is kept, and that is the first report any of them brought |
| CloseReports.AnInterimFigureMayBeKept | src/gwz/bridge.py:246-272 | a concrete run in which the client keeps (1, unconfirmed) from a second close while the host's report is (0, confirmed): the condition above does fail |
| CloseReports.Bridge.KeepCloseReport | src/gwz/bridge.py:268-272 | sets the kept report once and returns the kept one ever after |
| RecordState.OutcomeIsFirstTerminal | native/src/operations.rs:130-153 | for every interleaving of the terminal writers the outcome is the first terminal write, the events are those delivered in order, result and refusal are never both set, and a merge response is there only with its result |
| RecordState.LateWriterChangesNothing | native/src/operations.rs:347-367 | a late terminal write changes nothing, and exactly the result writers are told that the operation is already complete |
| RecordState.RepliesTell | native/src/operations.rs:214-368 | what each writer is told: a missing ID or a foreign one first, then whether there was an outcome already, and a refused write changes nothing |
| RecordState.ReadersAgree | native/src/operations.rs:187-407 | `try_result`, `result` and `merge_response` all report the first terminal write, or all that there is none; `wait_events` answers unless the operation goes on, nothing is at or after its number and time is left, and then with exactly the delivered events at or after its number, in order, and whether there is an outcome |
| RecordState.EventsAreTheDeliveries | native/src/operations.rs:503-513 | a record's events are those delivered, one for each delivery in the order of the writes, with number and payload kept and the operation's ID where an event names none |
| RecordState.WaitIsAnswered | native/src/operations.rs:187-212 | a turn of the wait answers exactly so, for any record, number and time-out |
| RecordState.OutcomeStands | native/src/operations.rs:187-407 | once there is an outcome, no later write changes what any reader of it is told; a wait for events always answers that it is complete, with the earlier answer's events and perhaps more behind them |
| RecordState.FirstWriteIsRead | native/src/operations.rs:214-345 | the readers of the first terminal write find, field for field, the result, response or refusal that its writer gave |
| RecordState.FirstTerminalOfAppended | native/src/operations.rs:279-367 | more writes never displace a terminal write that came before them |
| RecordStore.OneLiveRecordAnId | native/src/operations.rs:57-73 | of all records ever begun under one ID at most one is live, and it is the current one |
| RecordStore.DisplacedRecordIsEndedForGood | native/src/operations.rs:57-73 | a record that was displaced had ended, and keeps its outcome in every later state |
| RecordStore.RecordIsItsOwnWrites | native/src/operations.rs:425-446 | a record's events and outcome are determined by the writes through its own recorders, so a stale recorder never alters the fresh record |
| RecordStore.LiveRecordHasARecorder | native/src/operations.rs:431-437 | in every run a live record has a recorder if and only if its last recorder's drop is not under way, and that drop ends it |
| RecordStore.LastDropLeavesALiveRecord | native/src/operations.rs:431-437 | a concrete run in which a record is live with no recorder, between the last one's going and its drop's write: the condition above does fail |
| RecordStore.MoveKeepsStore | native/src/operations.rs:57-73 | every move keeps the current map exact and each record the replay of its own writes |
| RecordWakeups.NoReaderSleepsInVain | native/src/operations.rs:187-212 | in every run of writers and readers of one record, when no notification is on its way a sleeping reader really has to wait: there is no outcome, and for events none at or after its number |
| RecordWakeups.EveryAnswerIsRight | native/src/operations.rs:187-212 | in every run of writers and readers of one record each reader's answer is that of the writes there had been when it was given: the outcome of the first terminal write, or exactly the events at or after the reader's number, in order, and whether there was an outcome |
| RecordWakeups.WakingReadersIsOneStepAway | native/src/operations.rs:378-407 | a sleeping reader that could go on always has an enabled notification after which no such reader is left |
| RecordObjects.OperationStore.Begin | native/src/operations.rs:57-73 | refuses exactly while the ID names a live record, changing nothing; otherwise a fresh record takes its place |
| RecordObjects.Writer.Release | native/src/operations.rs:431-437 | dropping the last recorder ends a live record with the abandonment, and dropping any other leaves it alone |
| RecordObjects.OperationRecord.Deliver | native/src/operations.rs:503-513 | an event goes last, stamped with the recorder's ID if it names none |
| RecordObjects.OperationRecord.Complete | native/src/operations.rs:347-367 | sets response and result together when live, and otherwise changes nothing and says so |
| RecordObjects.OperationRecord.Refuse | native/src/operations.rs:130-138 | sets the refusal only while there is no outcome |
| RecordObjects.OperationRecord.Abandon | native/src/operations.rs:143-153 | leaves the record with an outcome, its own if it had one |
| RecordObjects.OperationRecord.FinishPanicError | native/src/operations.rs:279-296 | records the panic only when the operation had not finished before it panicked |
| RecordObjects.OperationRecord.FinishMerge | native/src/operations.rs:492-500 | refuses a response of another operation, and otherwise completes with the typed response and the result built from it |
| RecordObjects.OperationRecord.Finish | native/src/operations.rs:214-233 | refuses an envelope without an operation ID, and otherwise completes with the result built from it |
| RecordObjects.OperationRecord.ReadResult | native/src/operations.rs:378-389 | answers exactly when there is an outcome, result before refusal |
| RecordObjects.OperationRecord.ReadMerge | native/src/operations.rs:391-407 | answers exactly when there is an outcome: the response, the refusal, or that the result came without one |
| RecordObjects.OperationRecord.WaitEvents | native/src/operations.rs:187-212 | one turn of the wait, by a loop over the events: no answer exactly while the operation goes on, nothing is at or after the number and time is left; an answer holds exactly those events, in order, and whether the operation ended |
| RequestRuns.EveryRequestSettles | native/src/dispatch/mod.rs:455-608 | on every path (not begun, spawn failed, refused while waiting, entry or handler error, panic, success) a request that is over has ended its ticket and freed its slot and ID, and its record, once the last recorder's drop is done, has ended with exactly the outcome its path and its handler's writes call for, and the ID may be begun again |
| RequestRuns.EndingsSettle | native/src/dispatch/mod.rs:548-601 | the outcome each ending of a submit's thread leaves when the handler recorded none: cancelled while waiting, entry failed, handler failed (without its text after an exit), panicked, or succeeded silently |
| RequestAnswers.MergeSettles | native/src/dispatch/merge.rs:68-105 | in every run a merge that is over has left: its result and response together if the response names this operation, the model error if its handler failed, and an abandoned record if the response names another operation or the merge broke off; its ID is free |
| RequestAnswers.CallSettles | native/src/shims.rs:103-129 | in every run a call that reported to a record of its own has left: the response's result, or the record refused with the very failure of its handler, its ID free when it returns; without an operation ID, or broken off, the record is abandoned |
| RequestAnswers.SubmitSettles | native/src/dispatch/mod.rs:502-601 | in every run a submit whose thread ran is never left abandoned: its record ends with the response's result if the recorder took it, and otherwise with a failed result of this operation under the code, message and attribution of its thread's ending: cancelled while waiting, a failed entry's own error, a failed handler's text (withheld after an exit) or a panic |
| RequestAnswers.EndIsFixedWithTheTicket | native/src/client_host.rs:285-315 | in every run the ending a request's outcome is told from was fixed by the step that ended its ticket, counts as after an exit if and only if the host of a network operation had by then been closed at interpreter exit, and never changes afterwards |
| RequestAnswers.CancelledBeforeItStartedForCause | native/src/dispatch/mod.rs:548-568 | in every run a request is recorded as cancelled before it started only if, when its ticket ended, its registration had been cancelled or its host was closing |
| RequestAnswers.ResponseIsTakenJustWhen | native/src/operations.rs:347-367 | the recorder takes a handler's response if and only if it names an operation ID, for a merge this one: nothing can have been recorded before it |
| RequestRuns.SpawnFailureIsRetained | native/src/dispatch/mod.rs:603-608 | a failed spawn leaves the I/O refusal with its message in the record, never the abandoned-record error |
| RequestRuns.HandlerOutcomeStands | native/src/dispatch/mod.rs:572-601 | an outcome the handler recorded is not replaced by a later panic, failure or drop |
| RequestRuns.NoDutyFails | native/src/client_host.rs:295-313 | whatever a request's threads are due to do next, other than beginning a record, the host and the store allow it: the ticket they end has not ended and the recorder they use is still theirs |
| RequestRuns.NoRequestIsStuck | native/src/dispatch/mod.rs:455-608 | in every run a request that is not over, unless its ticket sleeps, has a move it can make now that brings it nearer to its end, or a turn of admission that puts it to sleep because 8 operations run |
| RequestRuns.RunsRefineBothMachines | native/src/dispatch/mod.rs:455-544 | every run of requests is at once a run of the host and a run of the record store, so the theorems about both hold of it |
| RequestRuns.RunIsCoupled | native/src/shims.rs:103-129 | in every state each request's place agrees with its ticket, with how many recorders it holds and with what was written through them, its handler having only delivered events before the dispatch deals with its answer, and no two requests share a ticket or a record |
| RequestRuns.ArrivalRegisters | native/src/client_host.rs:218-238 | a network request arrives with one registration of its own, under its ID and with its canceller, and any other leaves the host alone |
| RequestRuns.HeldOutcome | native/src/operations.rs:431-437 | a record's outcome is its request's own first terminal write, with the abandonment after the last recorder's drop |
| RequestRuns.SettledWrites | native/src/dispatch/mod.rs:548-601 | the writes of a path, with the abandonment behind them, settle on the outcome stated for that path |
| Settlement.AnswerStaysFirst | native/src/dispatch/merge.rs:94-104 | nothing in a handler's stage records an outcome before the dispatch has dealt with its answer, and that write alone decides the outcome |
| Settlement.MovedHoldings | native/src/shims.rs:103-129 | each move of a request, the beginning of a call's record and the refusal with its handler's failure among them, changes its recorders and its writes exactly as the store's move does |
| Settlement.ActionKeepsCoupling | native/src/dispatch/merge.rs:25-105 | every action of a submit, a merge submit, a call, a merge call, a cancel or a close, with a merge's own `finish_merge` and `finish_model_error`, keeps the coupling |
| EventReader.SubscribeEvents | src/gwz/bridge.py:356-376 | the loop, against a record that others keep writing with any timing of waits, stops at the first wait that sees completion, and what it has yielded depends only on the record at its last wait |
| EventReader.YieldBatch | src/gwz/bridge.py:367-372 | the inner loop skips an event below the next number and yields any other, advancing past it |
| EventReader.DeliveredExactlyOnce | src/gwz/bridge.py:356-376 | with non-negative strictly increasing numbers, the events yielded at completion are those present then, once each and in order, with every event pushed before the outcome among them |
| EventReader.NothingIsLostJustWhenIncreasing | src/gwz/bridge.py:367-372 | nothing is lost if and only if the numbers are at or above the start and strictly increase |
| EventReader.YieldedNumbersIncrease | src/gwz/bridge.py:367-372 | with no assumption on the log, the yielded numbers strictly increase |
| EventReader.YieldedJustWhenLargest | src/gwz/bridge.py:367-372 | an event is yielded if and only if its number is non-negative and exceeds every earlier one's |
| EventReader.WaitContinues | native/src/operations.rs:410-419 | one more wait from the inclusive cursor adds exactly what the longer log adds |
| EventReader.FreshOfUnseen | native/src/operations.rs:410-419 | the filter a wait applies drops nothing a subscription would yield |
| OutputReader.LogOutput | src/gwz/client.py:1313-1347 | yields a prefix of the log, the whole of it to a consumer that takes it all unless a read failed, fails exactly when a read did, and releases the spool exactly once on end, failure or early stop |
| OutputReader.ReadLog | src/gwz/client.py:1329-1345 | terminates with the remaining records as measure, whatever slices the reads return |
| OutputReader.DiffOutput | src/gwz/client.py:1209-1262 | each read starts at the cursor the answer before returned, also after `expired`; at the end of the stream the log has been yielded once and in order but for what had expired, all of it when nothing had; wherever the reading stops, what was yielded is a prefix of the log as long as nothing had expired; it fails exactly when a read failed or told of a failure; only answers that make it wait can use up its reads; and the stream is ended once on every way out, a failed read or an early stop among them |
| OutputReader.AllServedOrExpired | src/gwz/client.py:1231-1258 | a stream that reached its end has served every record or let it expire |
| OutputReader.ServedToTheEnd | src/gwz/client.py:1231-1258 | with nothing expired, what a stream that reached its end served is the whole rest of the log |
| OutputReader.ReadsAreBounded | src/gwz/client.py:1231-1258 | as long as the stream goes on there are at most as many reads as remaining records and answers that make the reader wait |
| OutputReader.ServedAtPositions | src/gwz/client.py:1231-1258 | with expiries it is the log's own records at the positions read |
| OutputReader.PositionsIncrease | src/gwz/client.py:1231-1258 | nothing is served twice or out of order |
| OutputReader.OnlyTheExpiredIsPassedOver | src/gwz/client.py:1244-1246 | a record passed over on the way to a served one had expired before the reader got to it |
| Calendar.CivilIsADate | src/gwz/cli_render_parts/log.py:176-194 | for every integer day number the arithmetic gives a valid date, and counting that date's days by years, months and days gives the number back |
| Calendar.ConversionUndoesCounting | src/gwz/cli_render_parts/log.py:176-194 | for every valid date, converting its day count returns it: with the row above, a bijection with an explicit inverse |
| Calendar.SuccessorIsNextDay | src/gwz/cli_render_parts/log.py:176-194 | day n+1 is the calendar's next day after day n |
| Calendar.EpochIsDayZero | src/gwz/cli_render_parts/log.py:176-194 | day 0 is 1970-01-01 |
| Calendar.ConversionKeepsOrder | src/gwz/cli_render_parts/log.py:176-194 | earlier day numbers are earlier dates, and the other way round |
| Calendar.YearOfEraHoldsDay | src/gwz/cli_render_parts/log.py:179-189 | the corrected quotient is the year of the era that holds the day, leap day included, for every day of an era |
| CommitDate.FormatLosesNothing | src/gwz/cli_render_parts/log.py:159-173 | for all integers, negative seconds, offsets and years among them, the printed text reads back to exactly the seconds and the offset, an absent offset as 0 |
| CommitDate.FormatIsInjective | src/gwz/cli_render_parts/log.py:159-173 | two printed dates are the same text if and only if seconds and offset are the same |
| CommitDate.TextHasItsShape | src/gwz/cli_render_parts/log.py:159-198 | every printed date is a year of at least four digits (signed only below zero), `-MM-DD HH:MM:SS `, and a signed offset of two digits each for hours and minutes, wider only where the year or the hours need it |
| CommitDate.LocalTimeInRange | src/gwz/cli_render_parts/log.py:159-166 | the printed hour, minute and second are those of a clock, the date is of the calendar, and together they are the local time exactly |
| CommitDate.YearReadsBack | src/gwz/cli_render_parts/log.py:197-198 | the printed year reads back for every integer, with its sign and any number of digits |
| CommitDate.OffsetReadsBack | src/gwz/cli_render_parts/log.py:167-173 | the printed offset reads back for every integer, its minutes always the last two digits |
| CodecRoundTrip.RoundTrip | src/gwz/protocol/codec.py:201-273 | for every schema and every well-typed value, with messages, lists, dictionaries, enum members and absent values nested at any depth, decoding its wire form returns the value |
| CodecRoundTrip.MessageRoundTrip | src/gwz/protocol/codec.py:239-250 | a message of the schema survives encoding and decoding |
| CodecRoundTrip.WireFormIsInjective | src/gwz/protocol/codec.py:201-212 | two well-typed messages have one wire form if and only if they are equal |
| CodecRoundTrip.FieldsOnTheWire | src/gwz/protocol/codec.py:201-203 | a message goes out as one entry for each field, under the field's name, in declaration order, absent values among them |
| CodecRoundTrip.EntriesOnTheWire | src/gwz/protocol/codec.py:210-211 | a well-typed dictionary goes out with its entries in order, none lost |
| CodecWire.OnlyPlainValuesGoOut | src/gwz/protocol/codec.py:201-212 | whatever is encoded, the wire form holds no enum member, no message object and no tuple at any depth |
| CodecWire.PlainValuesStay | src/gwz/protocol/codec.py:201-212 | a plain value with each key once in its dictionaries goes out as it is, so encoding twice is encoding once |
| CodecWire.MembersGoOutByName | src/gwz/protocol/codec.py:204-205 | an enum member goes out as a text under which its class looks up that very member |
| CodecWire.TuplesGoOutAsLists | src/gwz/protocol/codec.py:206-209 | a tuple goes out as the list of its encoded items |
| CodecWire.EncodedKeysAreAssigned | src/gwz/protocol/codec.py:210-211 | keys that come to coincide on the wire leave one entry, at the place of the first and with the value of the last |
| CodecWire.DecodedKeysAreAssigned | src/gwz/protocol/codec.py:266-272 | keys that decode to one value leave one entry, at the place of the first and with the value of the last |
| CodecRoundTrip.NameAndNumberAgree | src/gwz/protocol/codec.py:276-292 | a declared name and its number decode to the same member object, also when names share a number |
| CodecRoundTrip.DecodedUnderOwnName | src/gwz/protocol/codec.py:276-292 | a name decodes to the member of that very name if and only if no earlier member has its number |
| CodecRoundTrip.FieldsAreReadByName | src/gwz/protocol/codec.py:246-250 | decoding depends only on the named fields: order, unknown keys and explicit absences make no difference |
| CodecSpellings.DecodesJustWhenReadable | src/gwz/protocol/codec.py:239-292 | a wire value decodes if and only if the schema can read it, at every depth: declared messages and enums, a list for a list, a mapping for a message or map, a declared name or number for a member, a number for a float |
| CodecSpellings.DecodedIsWellTyped | src/gwz/protocol/codec.py:239-292 | what decodes from a readable value with plain scalars is well typed at every depth, its dictionaries with each key once |
| CodecSpellings.DecodingSettles | src/gwz/protocol/codec.py:201-292 | encoding what was decoded and decoding again gives the same value, whatever spelling came in |
| CodecSpellings.EverySpellingDecodes | src/gwz/protocol/codec.py:239-292 | every spelling of a well-typed value decodes to that value, at any depth: members by any of their names or numbers, booleans and whole numbers where a number is meant, fields in any order among any others, tuples for lists |
| CodecRoundTrip.DecodeMessage | src/gwz/protocol/codec.py:239-250 | the loop that fills the keyword arguments builds what the specification decodes, or stops with the first field's error |
| SchemaExactness.ProjectionIsExact | scripts/check_protocol_drift.py:428-573 | for tables whose edits do not disturb one another, as the script's own do, any schema, repeated names included, is accepted if and only if it holds every listed addition unchanged, and its projection is then everything not listed, in order |
| SchemaExactness.ProjectionIsTheRest | scripts/check_protocol_drift.py:428-573 | whatever the tables, the projection of an accepted schema is exactly what they do not list, in order |
| SchemaExactness.EditIsExact | scripts/check_protocol_drift.py:428-573 | each check-and-remove step takes out exactly what it lists, and refuses a schema that does not hold it |
| SchemaHistory.HistoryIsStripped | scripts/check_protocol_drift.py:428-573 | adding the listed additions one by one to any older schema, at any places in its lists, and projecting returns the older schema |
| SchemaHistory.GrowthIsStripped | scripts/check_protocol_drift.py:428-573 | stripping one addition undoes it |
| SchemaHistory.StrippedJustWhenGrown | scripts/check_protocol_drift.py:428-573 | a check-and-remove step gives an older schema if and only if the schema is that older one with the listed addition at some place |
| SchemaHistory.AcceptedHasAHistory | scripts/check_protocol_drift.py:428-573 | every accepted schema has grown from its projection by the listed additions, one at a time; nothing else passes |
| SchemaHistory.SameProjectionJustWhenAgreed | scripts/check_protocol_drift.py:428-573 | two accepted schemas have equal projections if and only if they agree, in order, on every message, field, enum member and method that is neither listed nor prefix-named, repetitions of a name included, so any changed old slot changes the projected document |
| SchemaProjection.Projection.Run | scripts/check_protocol_drift.py:428-573 | the in-place edits compute the projection, or stop at the first addition missing or changed |
| SchemaProjection.Projection.RemoveListedField | scripts/check_protocol_drift.py:456-466 | removes a field in place exactly when the message's fields of that name are the one expected |
| SchemaProjection.Projection.PopListedMember | scripts/check_protocol_drift.py:437-438 | pops an enum member, and accepts it only under its expected number |
| SchemaTables.PreLogEditsInOrder | scripts/check_protocol_drift.py:428-573 | in the script's tables no edit takes away what a later one looks for |
| SchemaTables.PreLogProjectionIsExact | scripts/check_protocol_drift.py:428-573 | the script's projection accepts a schema if and only if it holds every addition of its tables unchanged, and keeps exactly the rest |
| SchemaTables.PreLogProjection | scripts/check_protocol_drift.py:428-573 | the run of in-place edits over the script's tables returns that projection, or refuses |
| MetaRewrite.RewritesKeepTheCopiesEqual | native/src/route/transport.rs:267-330 | any sequence of the two rewrites keeps the embedded metadata equal to the separate copy and leaves every other request field, every explicit limit and every path not relative to the home as they were |
| MetaRewrite.BothOrNeither | native/src/route/transport.rs:313-330 | writing the metadata changes both copies when the request decodes to a map with a metadata field, and neither otherwise |
| MetaRewrite.MetadataIsFieldOne | native/src/route/transport.rs:318-326 | the metadata field is the first one under key 1, and a request has one exactly when it decodes to a map with such a key |
| MetaRewrite.RewriteIsIdempotent | native/src/route/transport.rs:267-311 | a rewrite done again changes nothing more |
| MetaRewrite.RewritesCommute | native/src/route/transport.rs:267-311 | resolving the home and filling the limits give one result in either order |
| MetaRewrite.RewritesComplete | native/src/route/transport.rs:267-311 | afterwards both limits are set and no path that could be resolved is left |
| MetaRewrite.LimitsAfterAnyRewrites | native/src/route/transport.rs:305-311 | after any sequence of rewrites each limit is the caller's own, or 50 or 8 if it was unset and the defaults were ever filled in, and unset otherwise |
| MetaRewrite.PathsAfterAnyRewrites | native/src/route/transport.rs:267-301 | after any sequence of rewrites every identity path is what the first home that can resolve it makes of it, and otherwise as it was, remotes and their order kept |
| MetaRewrite.HomePathsResolve | native/src/route/transport.rs:267-301 | resolving against a home makes of `~` the home with a separator behind it and of a path after `~/` that path below the home, or itself when absolute; every other path stays, as do all without an absolute home, and a home that is no text resolves only the absolute rest |
| MetaRewrite.NothingToResolve | native/src/route/transport.rs:281-301 | a request none of whose identity paths starts with a tilde is not rewritten at all, its bytes included |
| MetaRewrite.Request.ResolveIdentityHome | native/src/route/transport.rs:267-301 | the loop over the identity paths resolves each that is relative to the home, and rewrites the request only if it resolved one |
| MetaRewrite.Request.FillNativeDefaults | native/src/route/transport.rs:305-311 | fills the limits 50 and 8 only where they are unset |
| MetaRewrite.Request.RewriteMeta | native/src/route/transport.rs:313-330 | replaces the first field of key 1 and the separate copy together |
| CommandLine.ScanFindsTheCommand | src/gwz/cli_shared.py:417-434 | the scan finds a command at a position if and only if everything before it is some sequence of global options with values, and the token itself is none |
| CommandLine.ScanLandsOnCommand | src/gwz/cli_shared.py:417-434 | whatever global options with whatever values come first, in any of their written forms, the scan lands exactly on the command behind them |
| CommandLine.CommandsAreTheOtherTokens | src/gwz/cli_shared.py:417-434 | a token is taken for the command if and only if it is neither `--`, `-V` nor `--version` and starts no way of writing a global option |
| CommandLine.ScanEndsWithoutCommand | src/gwz/cli_shared.py:419-434 | `--`, `-V` or `--version` behind the global options, or nothing at all, gives no command |
| CommandLine.PathspecsFollowTheSeparator | src/gwz/cli_shared.py:406-414 | path specifications are exactly what follows the first `--` after the command, and there are none without one |
| CommandLine.OnlyTheCommandsOwnPathspecs | src/gwz/cli_shared.py:406-409 | under any other command there are none |
| CommandLine.TopLevelCommandIndex | src/gwz/cli_shared.py:417-434 | the loop computes the specified scan |
| CommandLine.SuffixComesOff | src/gwz/cli_shared.py:402-403 | path specifications appended to the operands come off again, and nothing else does |
| CommandLine.Arguments.NormalizePathspecs | src/gwz/cli_shared.py:393-403 | only `diff` and `log` are changed: path specifications are set, and taken off the operands' end if they are there |
| CommandLine.FirstRepeatedOption | src/gwz/cli_shared.py:448-454 | the loop with a set of options seen rejects exactly the first repeated one, and none if and only if none repeats |
| CommandLine.AnySpellingRepeats | src/gwz/cli_shared.py:448-454 | two ways of writing single-use options repeat one exactly when they name the same, whatever their values |
| CommandLine.OptionsAreLookedForBeforeTheSeparator | src/gwz/cli_shared.py:437-448 | a `log` command's repeated options are looked for in everything before its separator, the global options among it, and another command's nowhere |
| CommandLine.RejectRepeatedSingletons | src/gwz/cli_shared.py:437-454 | a `log` command is rejected exactly when a single-use option is repeated before its separator, naming the first such |

## Left out

- The handlers in gwz_core, the Git back ends and the transport runtime: a handler delivers any events
  and then answers or breaks off; a canceller is only known to have been called.
- PyO3, the interpreter's lock and thread pools, `asyncio`, and the FFI in `native/src/worker_host.rs`:
  only the exiting flag is state. What a thread does after an ending at interpreter exit is its outcome only.
- Real time: deadlines and time-outs are free choices, and result timestamps are not modelled.
- Integer widths: the `u64` serial number and the `usize` counts and sums are unbounded, so their
  overflow is not modelled.
- HostOperations: one method is one critical section; the waiting loops of `admit`, `cancel` and
  `close` are steps of HostProtocol, not loops over the object.
- HostProtocol: a refused registration is no step, since it changes nothing.
- RequestRuns.EveryRequestSettles: states what holds once a request is over and its last drop is done;
  that a scheduler lets every thread go on is not modelled.
- EventReader.DeliveredExactlyOnce: does not claim delivery of events pushed after the outcome was
  seen, and takes one record throughout, so the ID is not begun again during a subscription.
- OutputReader.DiffOutput: is followed for a given number of reads, which only answers that make it wait
  can use up; a stream that another party closed promises no delivery; the checks for a bridge without
  these reads are left out.
- The rest of `NativeCoreBridge.close` and `_stream_call`: cancellation of the awaiting task and calls
  in sequence.
- CBOR and taut byte encodings: taken to be lossless; a wire value is what the decoder returns.
- CodecRoundTrip.RoundTrip: text that Python's `float()` would parse, NaN, and tuples as dictionary
  keys are not modelled; equal keys of different types (`1` and `True`) do not occur in well-typed values.
- CodecSpellings.DecodesJustWhenReadable: under a float field numeric text that Python's `float()` parses is
  refused by the model, and whole numbers too large for a float (an `OverflowError`) are taken.
- SchemaProjection: `ir_version_1` and the hash of the projected document are left out, and a method's
  declaration is one opaque text.
- MetaRewrite: paths follow the Unix rules of joining; route capture and the transport setting are left out.
- CommandLine: argparse itself, command registration and option lowering.
- Rendering, packaging, release and regeneration scripts, and generated code: data and plumbing.

Nothing was executed: the results are what the Dafny verifier proves of this model.
