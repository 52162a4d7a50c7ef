/**
  What becomes of a handler's answer: for a merge, a call and a submit, the outcome that the
  dispatch leaves in the record on every path, in any run.
*/
module RequestAnswers {

  import opened Wrappers
  import opened RecordState
  import opened Submissions
  import opened Settlement
  import opened RequestRuns
  import HostTurns
  import Protocol = HostProtocol
  import Store = RecordStore

  /** The record that the request began. */
  function RecordOf(w: World, k: nat): Record
    requires k in w.requests && w.requests[k].record.Some? && w.requests[k].record.value < |w.store.records|
  {
    w.store.records[w.requests[k].record.value].record
  }

  predicate HasRecord(w: World, k: nat) {
    k in w.requests && w.requests[k].record.Some? && w.requests[k].record.value < |w.store.records|
  }

  /** The last recorder's drop has been done. */
  predicate DropDone(w: World, k: nat)
    requires HasRecord(w, k)
  {
    !w.store.records[w.requests[k].record.value].dropping
  }

  /** The request's own record does not keep its ID: it may be begun again, unless a later record holds it. */
  predicate FreesItsId(w: World, k: nat)
    requires HasRecord(w, k)
  {
    var request := w.requests[k];
    request.id in w.store.current && w.store.current[request.id] == request.record.value ==>
      Store.MayBegin(w.store, request.id)
  }

  predicate IsAbandoned(record: Record) {
    ReadResult(record) ==
    Some(Failure(ModelError(InternalError, "the operation ended without recording its outcome", None)))
  }

  lemma RunShapes(run: seq<World>, i: nat, k: nat)
    requires Run(run) && i < |run| && k in run[i].requests
    ensures ShapeFits(run[i].requests[k])
    ensures RecordFits(run[i].store.records, run[i].requests[k])
    ensures run[i].requests[k].record.Some? ==>
              HasRecord(run[i], k) && Store.HeldFits(run[i].store.records[run[i].requests[k].record.value])
  {
    hide Coupled, Run, ShapeFits, Store.HeldFits;
    RunIsCoupled(run, i);
    CoupledRequest(run[i], k);
  }

  /** Whether the recorder takes a response is settled by the response alone: nothing was recorded before it. */
  lemma ResponseIsTakenJustWhen(run: seq<World>, i: nat, k: nat)
    requires Run(run) && i < |run| && k in run[i].requests && run[i].requests[k].stage.Answered?
    requires !run[i].requests[k].stage.answer.Declined?
    ensures HasRecord(run[i], k)
    ensures
      var request := run[i].requests[k];
      var write := AnswerWrite(request, request.stage.answer).value;
      RecordState.Apply(request.id, RecordOf(run[i], k), write).1 == Done <==> Accepted(request, request.stage.answer)
  {
    hide Run, OwnWrites;
    RunShapes(run, i, k);
    var request := run[i].requests[k];
    HeldWhileHandling(run[i], k);
    OutcomeIsFirstTerminal(request.id, request.handlerWrites);
  }

  lemma HeldWhileHandling(w: World, k: nat)
    requires k in w.requests && HasRecord(w, k) && ShapeFits(w.requests[k]) &&
               RecordFits(w.store.records, w.requests[k])
    requires Store.HeldFits(w.store.records[w.requests[k].record.value]) && w.requests[k].stage.Answered?
    ensures RecordOf(w, k) == Replay(w.requests[k].id, w.requests[k].handlerWrites)
  {
  }

  // ----- The recorded answer, and its absence -----

  lemma NotedOutcomeStands(run: seq<World>, i: nat, k: nat)
    requires Run(run) && i < |run| && k in run[i].requests && NotedOutcome(run[i].requests[k]).Some?
    ensures HasRecord(run[i], k) && OutcomeOf(RecordOf(run[i], k)) == NotedOutcome(run[i].requests[k])
    ensures FreesItsId(run[i], k)
  {
    hide Run, OwnWrites, PlacesFit, RecordFits, Store.HeldFits;
    RunShapes(run, i, k);
    HandlerOutcomeStands(run, i, k);
  }

  lemma NothingNotedSettles(run: seq<World>, i: nat, k: nat)
    requires Run(run) && i < |run| && k in run[i].requests && run[i].requests[k].record.Some?
    requires run[i].requests[k].pc.Over? && !run[i].requests[k].submitterHolds && NotedOutcome(run[i].requests[k]).None?
    ensures HasRecord(run[i], k)
    ensures DropDone(run[i], k) ==>
              OutcomeOf(RecordOf(run[i], k)) == Some(PathOutcome(run[i].requests[k])) && FreesItsId(run[i], k)
  {
    hide Run, OwnWrites, PlacesFit, StagesFit, RecordFits, Store.HeldFits, PathOutcome;
    RunShapes(run, i, k);
    EveryRequestSettles(run, i, k);
  }

  lemma OutcomeIsRead(record: Record, outcome: Outcome)
    requires OutcomeOf(record) == Some(outcome)
    ensures outcome.Finished? ==> ReadResult(record) == Some(Success(outcome.result))
    ensures outcome.Refused? && Exclusive(record) ==> ReadResult(record) == Some(Failure(outcome.reason))
    ensures outcome.Finished? && outcome.merge.Some? ==> ReadMerge(record) == Some(Success(outcome.merge.value))
    ensures outcome.Finished? && outcome.merge.None? && Exclusive(record) ==>
              ReadMerge(record) == Some(Failure(NoMergeResponse))
  {
  }

  lemma RecordIsExclusive(run: seq<World>, i: nat, k: nat)
    requires Run(run) && i < |run| && k in run[i].requests && run[i].requests[k].record.Some?
    ensures HasRecord(run[i], k) && Exclusive(RecordOf(run[i], k))
  {
    hide Run, OwnWrites, ShapeFits, RecordFits;
    RunShapes(run, i, k);
    var held := run[i].store.records[run[i].requests[k].record.value];
    OutcomeIsFirstTerminal(held.id, held.writes);
  }

  // ----- Path by path -----

  /**
    A merge, submitted or called, once its answer has been dealt with: a response that names
    this operation gives its result and itself together, one that does not leaves the record to
    be abandoned, and a failure gives the model error. A merge that broke off is abandoned.
  */
  lemma MergeSettles(run: seq<World>, i: nat, k: nat)
    requires Run(run) && i < |run| && k in run[i].requests && run[i].requests[k].record.Some?
    requires IsMerge(run[i].requests[k].kind) && run[i].requests[k].pc.Over?
    ensures HasRecord(run[i], k)
    ensures
      var request, record := run[i].requests[k], RecordOf(run[i], k);
      if request.stage.Noted? && request.stage.answer.Declined? then
        var error := request.stage.answer.error;
        && FreesItsId(run[i], k) && ReadMerge(record) == Some(Failure(NoMergeResponse))
        && ReadResult(record) == Some(Success(OperationResult(
             request.id, request.meta.requestId, request.action, Failed, [], [GwzError(error.code, error.message)],
             request.meta.attribution, error.transport)))
      else if request.stage.Noted? && request.stage.answer.Merged?
           && request.stage.answer.response.response.operationId == Some(request.id) then
        var response := request.stage.answer.response;
        && FreesItsId(run[i], k) && ReadMerge(record) == Some(Success(response))
        && ReadResult(record) == Some(Success(OperationResult(
             request.id, response.response.requestId, response.response.action, response.response.status,
             response.response.members, response.response.errors, response.response.attribution,
             response.response.transport)))
      else DropDone(run[i], k) ==> IsAbandoned(record) && FreesItsId(run[i], k)
  {
    hide Run, OwnWrites, AnswerIsFirst, RecordFits, Store.HeldFits, ReadResult, ReadMerge;
    var request := run[i].requests[k];
    RunShapes(run, i, k);
    RecordIsExclusive(run, i, k);
    if NotedOutcome(request).Some? {
      NotedOutcomeStands(run, i, k);
      OutcomeIsRead(RecordOf(run[i], k), NotedOutcome(request).value);
    } else {
      NothingNotedSettles(run, i, k);
      if DropDone(run[i], k) {
        OutcomeIsRead(RecordOf(run[i], k), PathOutcome(request));
      }
    }
  }

  /**
    A call that reports to a record of its own: its response gives the result, a failed handler
    leaves the record refused with that very failure, and in both cases its ID is free when the
    call returns. A response without an operation ID, and a call that broke off, are abandoned.
  */
  lemma CallSettles(run: seq<World>, i: nat, k: nat)
    requires Run(run) && i < |run| && k in run[i].requests && run[i].requests[k].record.Some?
    requires run[i].requests[k].kind == Call && run[i].requests[k].pc.Over?
    ensures HasRecord(run[i], k)
    ensures
      var request, record := run[i].requests[k], RecordOf(run[i], k);
      if request.stage.Noted? && request.stage.answer.Declined? then
        ReadResult(record) == Some(Failure(request.stage.answer.error)) && FreesItsId(run[i], k)
      else if request.stage.Noted? && request.stage.answer.Responded?
           && request.stage.answer.envelope.operationId.Some? then
        var e := request.stage.answer.envelope;
        && FreesItsId(run[i], k)
        && ReadResult(record) == Some(Success(OperationResult(
             e.operationId.value, e.requestId, e.action, e.status, e.members, e.errors, e.attribution, e.transport)))
      else DropDone(run[i], k) ==> IsAbandoned(record) && FreesItsId(run[i], k)
  {
    hide Run, OwnWrites, AnswerIsFirst, RecordFits, Store.HeldFits, ReadResult;
    var request := run[i].requests[k];
    RunShapes(run, i, k);
    RecordIsExclusive(run, i, k);
    if NotedOutcome(request).Some? {
      NotedOutcomeStands(run, i, k);
      OutcomeIsRead(RecordOf(run[i], k), NotedOutcome(request).value);
    } else {
      NothingNotedSettles(run, i, k);
      if DropDone(run[i], k) {
        OutcomeIsRead(RecordOf(run[i], k), PathOutcome(request));
      }
    }
  }

  /** The result that a failed operation leaves. */
  function FailedWith(request: Request, code: ErrorCode, message: string, attribution: Option<nat>,
                      transport: Option<nat>): OperationResult
  {
    OperationResult(request.id, request.meta.requestId, request.action, Failed, [], [GwzError(code, message)],
                    attribution, transport)
  }

  /** A failure's result, by how the thread ended: only after an exit is the handler's own text withheld. */
  predicate IsFailureOf(result: OperationResult, request: Request, end: End) {
    match end.ending
    case Unadmitted =>
      result == FailedWith(request, Cancelled, "the network operation was cancelled before it started",
                           request.meta.attribution, None)
    case EntryFailed(error) =>
      result == FailedWith(request, error.code, error.message, request.meta.attribution, error.transport)
    case HandlerFailed(message) =>
      result == if end.atExit
                then FailedWith(request, InternalError,
                                "the operation failed after its client closed at interpreter exit",
                                request.meta.attribution, None)
                else FailedWith(request, InternalError, message, None, None)
    case HandlerPanicked =>
      result == FailedWith(request, InternalError, "RuntimeError: native operation panicked", None, None)
    case HandlerSucceeded => false
  }

  /**
    A submit whose thread ran ends with a result, never abandoned: the response's if the
    recorder took it, and otherwise the failure of the ending its thread came to.
  */
  lemma SubmitSettles(run: seq<World>, i: nat, k: nat)
    requires Run(run) && i < |run| && k in run[i].requests && run[i].requests[k].kind == Submit
    requires run[i].requests[k].pc.Over? && run[i].requests[k].pc.exit.Completed? && !run[i].requests[k].submitterHolds
    ensures HasRecord(run[i], k)
    ensures
      var request, record := run[i].requests[k], RecordOf(run[i], k);
      if request.stage.Noted? && request.stage.answer.Responded? && Accepted(request, request.stage.answer) then
        var e := request.stage.answer.envelope;
        && FreesItsId(run[i], k)
        && ReadResult(record) == Some(Success(OperationResult(
             e.operationId.value, e.requestId, e.action, e.status, e.members, e.errors, e.attribution, e.transport)))
      else
        && !request.pc.exit.end.ending.HandlerSucceeded?
        && (DropDone(run[i], k) ==>
              && FreesItsId(run[i], k) && ReadResult(record).Some? && ReadResult(record).value.Success?
              && IsFailureOf(ReadResult(record).value.value, request, request.pc.exit.end))
  {
    hide Run, OwnWrites, AnswerIsFirst, RecordFits, Store.HeldFits, ReadResult;
    var request := run[i].requests[k];
    RunShapes(run, i, k);
    RecordIsExclusive(run, i, k);
    if NotedOutcome(request).Some? {
      NotedOutcomeStands(run, i, k);
      OutcomeIsRead(RecordOf(run[i], k), NotedOutcome(request).value);
    } else {
      NothingNotedSettles(run, i, k);
      if DropDone(run[i], k) {
        OutcomeIsRead(RecordOf(run[i], k), PathOutcome(request));
      }
    }
  }

  // ----- The end a thread came to -----

  function EndOf(pc: Pc): Option<End> {
    match pc
    case Recording(end) => Some(end)
    case Releasing(end) => Some(end)
    case Over(Completed(end)) => Some(end)
    case _ => None
  }

  /** The request is about to end its ticket: with this ending, and under a host in this state. */
  predicate EndsWith(w: World, k: nat, end: End) {
    && k in w.requests && w.requests[k].pc == EndingTicket(end.ending)
    && (end.atExit <==> w.requests[k].serial.Some? && w.host.host.exiting)
  }

  lemma MovedKeepsEnd(request: Request, move: Move, next: nat, pc: Protocol.TicketPc, exiting: bool)
    requires PlacesFit(request) && Ready(request, move) && EndOf(Moved(request, move, next, pc, exiting).pc).Some?
    ensures
      var end := EndOf(Moved(request, move, next, pc, exiting).pc).value;
      || EndOf(request.pc) == Some(end)
      || (move.EndTicket? && request.pc == EndingTicket(end.ending)
          && (end.atExit <==> request.serial.Some? && exiting))
  {
    hide EndingFits, AnswerFits, AnswerWrite;
  }

  lemma ActionKeepsEnd(w: World, action: Action, k: nat)
    requires Submissions.Enabled(w, action) && k in Submissions.Apply(w, action).requests
    requires EndOf(Submissions.Apply(w, action).requests[k].pc).Some?
    requires k in w.requests ==> PlacesFit(w.requests[k])
    ensures
      var end := EndOf(Submissions.Apply(w, action).requests[k].pc).value;
      || (k in w.requests && EndOf(w.requests[k].pc) == Some(end))
      || (EndsWith(w, k, end) && exists cleanup :: action == Take(k, EndTicket(cleanup)))
  {
    hide Ready, Moved, PlacesFit;
    match action
    case Take(j, move) =>
      if j == k {
        var host := Stepped(w.host, HostStepOf(w.requests[k], move));
        MovedKeepsEnd(w.requests[k], move, |w.store.records|, TicketPcOf(host, w.requests[k]), w.host.host.exiting);
      }
    case _ =>
  }

  /**
    The end a request's thread came to is fixed by the step that ended its ticket: the ending is
    the one it had then, and it counts as after an exit just when the host had by then been closed
    at interpreter exit and the request was a network operation.
  */
  lemma {:induction false} EndIsFixedWithTheTicket(run: seq<World>, i: nat, k: nat) returns (j: nat)
    requires Run(run) && i < |run| && k in run[i].requests && EndOf(run[i].requests[k].pc).Some?
    ensures j < i && EndsWith(run[j], k, EndOf(run[i].requests[k].pc).value)
    ensures exists cleanup ::
              && Submissions.Enabled(run[j], Take(k, EndTicket(cleanup)))
              && run[j + 1] == Submissions.Apply(run[j], Take(k, EndTicket(cleanup)))
    ensures forall m :: j < m <= i ==>
              k in run[m].requests && EndOf(run[m].requests[k].pc) == EndOf(run[i].requests[k].pc)
  {
    hide Submissions.Apply, Submissions.Enabled, PlacesFit, StagesFit, AnswerIsFirst, RecordFits, Store.HeldFits;
    assert Follows(run, i);
    if k in run[i - 1].requests {
      RunShapes(run, i - 1, k);
    }
    var action :| Submissions.Enabled(run[i - 1], action) && run[i] == Submissions.Apply(run[i - 1], action);
    ActionKeepsEnd(run[i - 1], action, k);
    if k in run[i - 1].requests && EndOf(run[i - 1].requests[k].pc) == EndOf(run[i].requests[k].pc) {
      j := EndIsFixedWithTheTicket(run, i - 1, k);
    } else {
      j := i - 1;
    }
  }

  lemma UnadmittedIsRefused(run: seq<World>, i: nat, k: nat)
    requires Run(run) && i < |run| && k in run[i].requests && run[i].requests[k].pc == EndingTicket(Unadmitted)
    ensures
      var serial, tickets := run[i].requests[k].serial, run[i].host.tickets;
      && serial.Some? && serial.value in tickets && tickets[serial.value].id == run[i].requests[k].id
      && tickets[serial.value].pc == Protocol.Refused
  {
    hide Coupled, Run, StagesFit, AnswerIsFirst, RecordFits;
    RunIsCoupled(run, i);
    CoupledRequest(run[i], k);
  }

  /**
    A request is recorded as cancelled before it started only if it was: when its ticket ended, it
    was a network operation whose registration had been cancelled, or whose host was closing.
  */
  lemma CancelledBeforeItStartedForCause(run: seq<World>, i: nat, k: nat) returns (j: nat)
    requires Run(run) && i < |run| && k in run[i].requests && EndOf(run[i].requests[k].pc).Some?
    requires EndOf(run[i].requests[k].pc).value.ending.Unadmitted?
    ensures j < i && k in run[j].requests && run[j].requests[k].serial.Some?
    ensures
      var request, host := run[j].requests[k], run[j].host.host;
      || host.closing
      || (request.id in host.live && host.live[request.id].serial == request.serial.value
          && host.live[request.id].cancelled)
  {
    hide Run, Protocol.Reachable, Store.Run;
    j := EndIsFixedWithTheTicket(run, i, k);
    UnadmittedIsRefused(run, j, k);
    var stores := RunsRefineBothMachines(run, j);
    HostTurns.ReachedRefusedForCause(run[j].host, run[j].requests[k].serial.value);
  }
}
