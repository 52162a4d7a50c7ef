/**
  One operation's record: the events it delivers, and a terminal outcome that
  several writers compete for and every reader agrees on.
*/
module RecordState {
  import opened Wrappers

  datatype ErrorCode = InvalidRequest | Cancelled | UnsupportedOperation | InternalError | IoError | Other(code: nat)

  datatype ModelError = ModelError(code: ErrorCode, message: string, transport: Option<nat>)

  datatype GwzError = GwzError(code: ErrorCode, message: string)

  datatype Event = Event(operationId: string, sequence: int, payload: nat)

  datatype Status = Failed | Reported(status: nat)

  datatype Envelope = Envelope(
    operationId: Option<string>, requestId: string, action: nat, status: Status, members: seq<nat>,
    errors: seq<GwzError>, attribution: Option<nat>, transport: Option<nat>)

  datatype MergeResponse = MergeResponse(response: Envelope, rest: nat)

  datatype RequestMeta = RequestMeta(requestId: string, attribution: Option<nat>)

  datatype OperationResult = OperationResult(
    operationId: string, requestId: string, action: nat, status: Status, members: seq<nat>,
    errors: seq<GwzError>, attribution: Option<nat>, transport: Option<nat>)

  datatype Record = Record(
    events: seq<Event>,
    result: Option<OperationResult>,
    mergeResponse: Option<MergeResponse>,
    refusal: Option<ModelError>)

  const NEW_RECORD: Record := Record([], None, None, None)

  const ABANDONED: ModelError :=
    ModelError(InternalError, "the operation ended without recording its outcome", None)

  predicate IsLive(record: Record) {
    record.result.None? && record.refusal.None?
  }

  // ----- Writers -----

  datatype Write =
    | Deliver(event: Event)
    | Finish(envelope: Envelope)
    | FinishError(requestId: string, action: nat, message: string)
    | FinishModelError(meta: RequestMeta, action: nat, error: ModelError)
    | FinishPanicError(requestId: string, action: nat, message: string)
    | FinishMerge(response: MergeResponse)
    | Refuse(reason: ModelError)
    | Abandon

  datatype Reply = Done | AlreadyComplete | MissingOperationId | WrongOperationId

  function ResultOf(envelope: Envelope, operationId: string): OperationResult {
    OperationResult(operationId, envelope.requestId, envelope.action, envelope.status, envelope.members,
                    envelope.errors, envelope.attribution, envelope.transport)
  }

  function FailureResult(operationId: string, requestId: string, action: nat, message: string): OperationResult {
    OperationResult(operationId, requestId, action, Failed, [], [GwzError(InternalError, message)], None, None)
  }

  function ModelErrorResult(operationId: string, meta: RequestMeta, action: nat, error: ModelError): OperationResult {
    OperationResult(operationId, meta.requestId, action, Failed, [], [GwzError(error.code, error.message)],
                    meta.attribution, error.transport)
  }

  function Stamped(event: Event, operationId: string): Event {
    if event.operationId == "" then event.(operationId := operationId) else event
  }

  /** The typed response and the result are published together. */
  function Complete(record: Record, result: OperationResult, merge: Option<MergeResponse>): (Record, Reply) {
    if IsLive(record) then (record.(mergeResponse := merge, result := Some(result)), Done)
    else (record, AlreadyComplete)
  }

  function RefuseWith(record: Record, reason: ModelError): Record {
    if IsLive(record) then record.(refusal := Some(reason)) else record
  }

  /** One write through a recorder of `operationId`. */
  function Apply(operationId: string, record: Record, write: Write): (Record, Reply) {
    match write
    case Deliver(event) => (record.(events := record.events + [Stamped(event, operationId)]), Done)
    case Finish(envelope) =>
      if envelope.operationId.None? then (record, MissingOperationId)
      else Complete(record, ResultOf(envelope, envelope.operationId.value), None)
    case FinishError(requestId, action, message) =>
      Complete(record, FailureResult(operationId, requestId, action, message), None)
    case FinishModelError(meta, action, error) =>
      Complete(record, ModelErrorResult(operationId, meta, action, error), None)
    case FinishPanicError(requestId, action, message) =>
      if IsLive(record)
      then (record.(result := Some(FailureResult(operationId, requestId, action, message))), Done)
      else (record, Done)
    case FinishMerge(response) =>
      if response.response.operationId != Some(operationId) then (record, WrongOperationId)
      else Complete(record, ResultOf(response.response, operationId), Some(response))
    case Refuse(reason) => (RefuseWith(record, reason), Done)
    case Abandon => (RefuseWith(record, ABANDONED), Done)
  }

  function Replay(operationId: string, writes: seq<Write>): Record {
    if writes == [] then NEW_RECORD
    else Apply(operationId, Replay(operationId, writes[..|writes| - 1]), writes[|writes| - 1]).0
  }

  // ----- The outcome, counted from the writes -----

  datatype Outcome = Finished(result: OperationResult, merge: Option<MergeResponse>) | Refused(reason: ModelError)

  /** The outcome a write records if it comes first. */
  function Proposes(operationId: string, write: Write): Option<Outcome> {
    match write
    case Deliver(_) => None
    case Finish(envelope) =>
      if envelope.operationId.Some? then Some(Finished(ResultOf(envelope, envelope.operationId.value), None)) else None
    case FinishError(requestId, action, message) =>
      Some(Finished(FailureResult(operationId, requestId, action, message), None))
    case FinishModelError(meta, action, error) =>
      Some(Finished(ModelErrorResult(operationId, meta, action, error), None))
    case FinishPanicError(requestId, action, message) =>
      Some(Finished(FailureResult(operationId, requestId, action, message), None))
    case FinishMerge(response) =>
      if response.response.operationId == Some(operationId)
      then Some(Finished(ResultOf(response.response, operationId), Some(response))) else None
    case Refuse(reason) => Some(Refused(reason))
    case Abandon => Some(Refused(ABANDONED))
  }

  function FirstTerminal(operationId: string, writes: seq<Write>): Option<Outcome> {
    if writes == [] then None
    else if Proposes(operationId, writes[0]).Some? then Proposes(operationId, writes[0])
    else FirstTerminal(operationId, writes[1..])
  }

  function Delivered(operationId: string, writes: seq<Write>): seq<Event> {
    if writes == [] then []
    else
      (if writes[0].Deliver? then [Stamped(writes[0].event, operationId)] else [])
      + Delivered(operationId, writes[1..])
  }

  function OutcomeOf(record: Record): Option<Outcome> {
    if record.result.Some? then Some(Finished(record.result.value, record.mergeResponse))
    else if record.refusal.Some? then Some(Refused(record.refusal.value))
    else None
  }

  /** A result and a refusal are never both there, nor a merge response without its result. */
  predicate Exclusive(record: Record) {
    && !(record.result.Some? && record.refusal.Some?)
    && (record.mergeResponse.Some? ==> record.result.Some?)
  }

  lemma {:induction false} FirstTerminalOfAppended(operationId: string, writes: seq<Write>, more: seq<Write>)
    ensures FirstTerminal(operationId, writes + more) ==
            if FirstTerminal(operationId, writes).Some? then FirstTerminal(operationId, writes)
            else FirstTerminal(operationId, more)
  {
    if writes == [] {
      assert writes + more == more;
    } else {
      assert (writes + more)[1..] == writes[1..] + more;
      FirstTerminalOfAppended(operationId, writes[1..], more);
    }
  }

  lemma {:induction false} DeliveredOfAppended(operationId: string, writes: seq<Write>, more: seq<Write>)
    ensures Delivered(operationId, writes + more) == Delivered(operationId, writes) + Delivered(operationId, more)
  {
    if writes == [] {
      assert writes + more == more;
    } else {
      hide Stamped;
      assert (writes + more)[1..] == writes[1..] + more;
      DeliveredOfAppended(operationId, writes[1..], more);
      var first := if writes[0].Deliver? then [Stamped(writes[0].event, operationId)] else [];
      assert first + (Delivered(operationId, writes[1..]) + Delivered(operationId, more))
          == (first + Delivered(operationId, writes[1..])) + Delivered(operationId, more);
    }
  }

  // ----- Picking from a sequence in order -----

  predicate Ascending(positions: seq<nat>, n: nat) {
    && (forall i :: 0 <= i < |positions| ==> positions[i] < n)
    && (forall i, j :: 0 <= i < j < |positions| ==> positions[i] < positions[j])
  }

  /** The positions so far, and the next one if it is chosen too. */
  lemma AscendsTo(positions: seq<nat>, n: nat, chosen: bool) returns (longer: seq<nat>)
    requires Ascending(positions, n)
    ensures longer == positions + (if chosen then [n] else []) && Ascending(longer, n + 1)
    ensures forall k: nat :: k < n ==> (k in longer <==> k in positions)
    ensures n in longer <==> chosen
  {
    longer := positions + (if chosen then [n] else []);
  }

  /** The event keeps its number and payload, and belongs to the operation it names or else to the record's. */
  predicate IsDelivered(operationId: string, given: Event, event: Event) {
    && event.sequence == given.sequence && event.payload == given.payload
    && event.operationId == if given.operationId == "" then operationId else given.operationId
  }

  ghost predicate DeliveredAt(operationId: string, writes: seq<Write>, events: seq<Event>, positions: seq<nat>) {
    && Ascending(positions, |writes|) && |positions| == |events|
    && (forall k: nat :: k < |writes| ==> (k in positions <==> writes[k].Deliver?))
    && (forall i :: 0 <= i < |events| ==>
          writes[positions[i]].Deliver? && IsDelivered(operationId, writes[positions[i]].event, events[i]))
  }

  lemma {:induction false} DeliveriesInOrder(operationId: string, writes: seq<Write>) returns (positions: seq<nat>)
    ensures DeliveredAt(operationId, writes, Delivered(operationId, writes), positions)
  {
    hide IsDelivered, Delivered, Stamped;
    if writes == [] {
      positions := [];
      NothingAscends();
      NothingDelivered(operationId);
    } else {
      var n := |writes| - 1;
      var before, last := writes[..n], writes[n];
      var earlier := DeliveriesInOrder(operationId, before);
      positions := AscendsTo(earlier, n, last.Deliver?);
      assert writes == before + [last];
      DeliveredOfAppended(operationId, before, [last]);
      OneDelivery(operationId, last);
      forall k: nat | k < n ensures k in positions <==> writes[k].Deliver? {
        assert writes[k] == before[k];
      }
    }
  }

  lemma NothingAscends()
    ensures Ascending([], 0)
  {
  }

  lemma NothingDelivered(operationId: string)
    ensures Delivered(operationId, []) == []
  {
  }

  lemma OneDelivery(operationId: string, write: Write)
    ensures
      var events := Delivered(operationId, [write]);
      if write.Deliver? then |events| == 1 && IsDelivered(operationId, write.event, events[0]) else events == []
  {
    assert [write][1..] == [] && Delivered(operationId, []) == [];
  }

  /** A record's events are those its writers delivered, in their order, one for each delivery and no others. */
  lemma EventsAreTheDeliveries(operationId: string, writes: seq<Write>)
    ensures exists positions :: DeliveredAt(operationId, writes, Replay(operationId, writes).events, positions)
  {
    OutcomeIsFirstTerminal(operationId, writes);
    var positions := DeliveriesInOrder(operationId, writes);
  }

  ghost predicate ChosenAt(events: seq<Event>, after: int, chosen: seq<Event>, positions: seq<nat>) {
    && Ascending(positions, |events|) && |positions| == |chosen|
    && (forall k: nat :: k < |events| ==> (k in positions <==> events[k].sequence >= after))
    && (forall i :: 0 <= i < |chosen| ==> chosen[i] == events[positions[i]])
  }

  /** Exactly the events numbered at or after `after`, in their order. */
  ghost predicate ChosenFrom(events: seq<Event>, after: int, chosen: seq<Event>) {
    exists positions :: ChosenAt(events, after, chosen, positions)
  }

  lemma {:induction false} UnseenOfAppended(events: seq<Event>, more: seq<Event>, after: int)
    ensures Unseen(events + more, after) == Unseen(events, after) + Unseen(more, after)
  {
    if events == [] {
      assert events + more == more;
    } else {
      assert (events + more)[1..] == events[1..] + more;
      UnseenOfAppended(events[1..], more, after);
      var first := if events[0].sequence >= after then [events[0]] else [];
      assert first + (Unseen(events[1..], after) + Unseen(more, after))
          == (first + Unseen(events[1..], after)) + Unseen(more, after);
    }
  }

  lemma {:induction false} UnseenInOrder(events: seq<Event>, after: int) returns (positions: seq<nat>)
    ensures ChosenAt(events, after, Unseen(events, after), positions)
  {
    hide Unseen;
    if events == [] {
      positions := [];
      NothingAscends();
      UnseenOfNothing(after);
    } else {
      var n := |events| - 1;
      var before, last := events[..n], events[n];
      var earlier := UnseenInOrder(before, after);
      positions := AscendsTo(earlier, n, last.sequence >= after);
      assert events == before + [last];
      UnseenOfAppended(before, [last], after);
      OneUnseen(last, after);
      forall k: nat | k < n ensures k in positions <==> events[k].sequence >= after {
        assert events[k] == before[k];
      }
    }
  }

  lemma UnseenOfNothing(after: int)
    ensures Unseen([], after) == []
  {
  }

  lemma OneUnseen(event: Event, after: int)
    ensures Unseen([event], after) == if event.sequence >= after then [event] else []
  {
    assert [event][1..] == [] && Unseen([], after) == [];
  }

  /**
    What a wait for events answers: there is no answer just while the operation goes on, nothing
    is numbered at or after `after` and time is left; an answer holds what is, and whether it ended.
  */
  ghost predicate AnswersWait(events: seq<Event>, ended: bool, after: int, timedOut: bool,
                              answer: Option<(seq<Event>, bool)>)
  {
    && (answer.None? <==>
          !ended && !timedOut && forall k :: 0 <= k < |events| ==> events[k].sequence < after)
    && (answer.Some? ==> answer.value.1 == ended && ChosenFrom(events, after, answer.value.0))
  }

  lemma {:induction false} NothingUnseen(events: seq<Event>, after: int)
    ensures Unseen(events, after) == [] <==> forall k :: 0 <= k < |events| ==> events[k].sequence < after
  {
    if events != [] {
      NothingUnseen(events[1..], after);
      assert forall k :: 0 < k < |events| ==> events[k] == events[1..][k - 1];
    }
  }

  lemma UnseenAreChosen(events: seq<Event>, after: int)
    ensures ChosenFrom(events, after, Unseen(events, after))
  {
    hide ChosenAt;
    var positions := UnseenInOrder(events, after);
  }

  /** So a turn of the wait is answered. */
  lemma WaitIsAnswered(record: Record, after: int, timedOut: bool)
    ensures AnswersWait(record.events, OutcomeOf(record).Some?, after, timedOut, WaitTurn(record, after, timedOut))
  {
    hide Unseen, ChosenFrom;
    NothingUnseen(record.events, after);
    UnseenAreChosen(record.events, after);
  }

  /** Whatever the writers do, in whatever order, the outcome is the first terminal write. */
  lemma {:induction false} OutcomeIsFirstTerminal(operationId: string, writes: seq<Write>)
    ensures
      var record := Replay(operationId, writes);
      && OutcomeOf(record) == FirstTerminal(operationId, writes)
      && record.events == Delivered(operationId, writes)
      && Exclusive(record)
  {
    if writes != [] {
      var n := |writes| - 1;
      assert writes == writes[..n] + [writes[n]];
      OutcomeIsFirstTerminal(operationId, writes[..n]);
      FirstTerminalOfAppended(operationId, writes[..n], [writes[n]]);
      DeliveredOfAppended(operationId, writes[..n], [writes[n]]);
      assert [writes[n]][1..] == [];
    }
  }

  /** A terminal write that comes late changes nothing, and the result writers are told so. */
  lemma LateWriterChangesNothing(operationId: string, record: Record, write: Write)
    requires !IsLive(record) && !write.Deliver?
    ensures Apply(operationId, record, write).0 == record
    ensures Apply(operationId, record, write).1 == AlreadyComplete <==>
              && Proposes(operationId, write).Some?
              && !write.Refuse? && !write.Abandon? && !write.FinishPanicError?
  {
  }

  /** What a writer is told: an ID missing or wrong before anything else, then whether there was an outcome already. */
  lemma RepliesTell(operationId: string, record: Record, write: Write)
    ensures
      var reply := Apply(operationId, record, write).1;
      && (reply == MissingOperationId <==> write.Finish? && write.envelope.operationId.None?)
      && (reply == WrongOperationId <==>
            write.FinishMerge? && write.response.response.operationId != Some(operationId))
      && (reply == AlreadyComplete <==>
            && (record.result.Some? || record.refusal.Some?)
            && (|| write.FinishError? || write.FinishModelError?
                || (write.Finish? && write.envelope.operationId.Some?)
                || (write.FinishMerge? && write.response.response.operationId == Some(operationId))))
      && (reply != Done ==> Apply(operationId, record, write).0 == record)
  {
  }

  // ----- Readers -----

  datatype MergeFailure = RefusedWith(reason: ModelError) | NoMergeResponse

  function TryResult(record: Record): Result<Option<OperationResult>, ModelError> {
    if record.refusal.Some? then Failure(record.refusal.value) else Success(record.result)
  }

  /** The blocking reads answer None while they would wait. */
  function ReadResult(record: Record): Option<Result<OperationResult, ModelError>> {
    if record.result.Some? then Some(Success(record.result.value))
    else if record.refusal.Some? then Some(Failure(record.refusal.value))
    else None
  }

  function ReadMerge(record: Record): Option<Result<MergeResponse, MergeFailure>> {
    if record.mergeResponse.Some? then Some(Success(record.mergeResponse.value))
    else if record.refusal.Some? then Some(Failure(RefusedWith(record.refusal.value)))
    else if record.result.Some? then Some(Failure(NoMergeResponse))
    else None
  }

  function Unseen(events: seq<Event>, afterSequence: int): seq<Event> {
    if events == [] then []
    else (if events[0].sequence >= afterSequence then [events[0]] else []) + Unseen(events[1..], afterSequence)
  }

  predicate IsComplete(record: Record) {
    record.result.Some? || record.refusal.Some?
  }

  /** One turn of the wait for events, which also answers once its time has passed. */
  function WaitTurn(record: Record, afterSequence: int, timedOut: bool): Option<(seq<Event>, bool)> {
    var events := Unseen(record.events, afterSequence);
    if events != [] || IsComplete(record) || timedOut then Some((events, IsComplete(record))) else None
  }

  /** The five readers report one outcome, the first terminal write, and the events as they were delivered. */
  lemma ReadersAgree(operationId: string, writes: seq<Write>)
    ensures
      var record := Replay(operationId, writes);
      && (IsComplete(record) <==> FirstTerminal(operationId, writes).Some?)
      && match FirstTerminal(operationId, writes)
         case None =>
           TryResult(record) == Success(None) && ReadResult(record) == None && ReadMerge(record) == None
         case Some(Finished(result, merge)) =>
           && TryResult(record) == Success(Some(result)) && ReadResult(record) == Some(Success(result))
           && ReadMerge(record) == Some(if merge.Some? then Success(merge.value) else Failure(NoMergeResponse))
         case Some(Refused(reason)) =>
           && TryResult(record) == Failure(reason) && ReadResult(record) == Some(Failure(reason))
           && ReadMerge(record) == Some(Failure(RefusedWith(reason)))
    ensures forall after, timedOut ::
              AnswersWait(Delivered(operationId, writes), FirstTerminal(operationId, writes).Some?, after, timedOut,
                          WaitTurn(Replay(operationId, writes), after, timedOut))
  {
    hide AnswersWait, WaitTurn;
    OutcomeIsFirstTerminal(operationId, writes);
    forall after, timedOut
      ensures AnswersWait(Delivered(operationId, writes), FirstTerminal(operationId, writes).Some?, after, timedOut,
                          WaitTurn(Replay(operationId, writes), after, timedOut))
    {
      WaitIsAnswered(Replay(operationId, writes), after, timedOut);
    }
  }

  /** Once there is an outcome, no later write changes what any reader is told. */
  lemma OutcomeStands(operationId: string, writes: seq<Write>, more: seq<Write>)
    requires FirstTerminal(operationId, writes).Some?
    ensures
      var was, now := Replay(operationId, writes), Replay(operationId, writes + more);
      && TryResult(now) == TryResult(was) && ReadResult(now) == ReadResult(was)
      && ReadMerge(now) == ReadMerge(was) && IsComplete(now)
      && was.events <= now.events
      && forall after, timedOut ::
           var early, late := WaitTurn(was, after, timedOut), WaitTurn(now, after, timedOut);
           early.Some? && late.Some? && early.value.1 && late.value.1 && early.value.0 <= late.value.0
  {
    FirstTerminalOfAppended(operationId, writes, more);
    DeliveredOfAppended(operationId, writes, more);
    OutcomeIsFirstTerminal(operationId, writes);
    OutcomeIsFirstTerminal(operationId, writes + more);
    ReadersAgree(operationId, writes);
    ReadersAgree(operationId, writes + more);
    forall after
      ensures Unseen(Replay(operationId, writes).events, after) <=
              Unseen(Replay(operationId, writes + more).events, after)
    {
      UnseenOfAppended(Delivered(operationId, writes), Delivered(operationId, more), after);
    }
  }

  /** A reader of the first terminal write finds what its writer gave, field for field. */
  lemma FirstWriteIsRead(operationId: string, writes: seq<Write>, write: Write)
    requires FirstTerminal(operationId, writes).None? && Proposes(operationId, write).Some?
    ensures
      var record := Replay(operationId, writes + [write]);
      && (write.Finish? ==>
            var e := write.envelope;
            && ReadMerge(record) == Some(Failure(NoMergeResponse))
            && ReadResult(record) == Some(Success(OperationResult(
                 e.operationId.value, e.requestId, e.action, e.status, e.members, e.errors, e.attribution,
                 e.transport))))
      && (write.FinishMerge? ==>
            var e := write.response.response;
            && ReadMerge(record) == Some(Success(write.response))
            && ReadResult(record) == Some(Success(OperationResult(
                 operationId, e.requestId, e.action, e.status, e.members, e.errors, e.attribution, e.transport))))
      && (write.FinishError? || write.FinishPanicError? ==>
            ReadResult(record) == Some(Success(OperationResult(
              operationId, write.requestId, write.action, Failed, [], [GwzError(InternalError, write.message)], None,
              None))))
      && (write.FinishModelError? ==>
            ReadResult(record) == Some(Success(OperationResult(
              operationId, write.meta.requestId, write.action, Failed, [],
              [GwzError(write.error.code, write.error.message)], write.meta.attribution, write.error.transport))))
      && (write.Refuse? ==> ReadResult(record) == Some(Failure(write.reason)))
      && (write.Abandon? ==>
            ReadResult(record) ==
            Some(Failure(ModelError(InternalError, "the operation ended without recording its outcome", None))))
  {
    hide Replay;
    FirstTerminalOfAppended(operationId, writes, [write]);
    ReadersAgree(operationId, writes + [write]);
  }
}
