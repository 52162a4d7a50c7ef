/**
  The record store as the objects the extension shares: a record, the counted
  writer behind a recorder, and the map of records by operation ID. Each method is
  one critical section of the record it names.
*/
module RecordObjects {
  import opened Wrappers
  import opened RecordState

  class OperationRecord {
    var events: seq<Event>
    var result: Option<OperationResult>
    var mergeResponse: Option<MergeResponse>
    var refusal: Option<ModelError>

    ghost function View(): Record
      reads this
    {
      Record(events, result, mergeResponse, refusal)
    }

    ghost predicate Valid()
      reads this
    {
      Exclusive(View())
    }

    constructor ()
      ensures Valid() && View() == NEW_RECORD
    {
      events, result, mergeResponse, refusal := [], None, None, None;
    }

    predicate Live()
      reads this
    {
      result.None? && refusal.None?
    }

    method Push(event: Event)
      modifies this`events
      ensures events == old(events) + [event]
    {
      events := events + [event];
    }

    /** A recorder's delivery: an event that names no operation is stamped with the recorder's. */
    method Deliver(operationId: string, event: Event)
      requires Valid()
      modifies this`events
      ensures Valid() && View() == RecordState.Apply(operationId, old(View()), Write.Deliver(event)).0
      ensures |events| == |old(events)| + 1 && events[..|old(events)|] == old(events)
      ensures IsDelivered(operationId, event, events[|old(events)|])
    {
      var stamped := event;
      if stamped.operationId == "" {
        stamped := stamped.(operationId := operationId);
      }
      Push(stamped);
    }

    method Refuse(reason: ModelError)
      requires Valid()
      modifies this
      ensures Valid() && View() == RefuseWith(old(View()), reason)
    {
      if Live() {
        refusal := Some(reason);
      }
    }

    method Abandon()
      requires Valid()
      modifies this
      ensures Valid() && View() == RefuseWith(old(View()), ABANDONED) && !Live()
    {
      if Live() {
        refusal := Some(ABANDONED);
      }
    }

    method Complete(result': OperationResult, merge: Option<MergeResponse>) returns (reply: Reply)
      requires Valid()
      modifies this
      ensures Valid() && (View(), reply) == RecordState.Complete(old(View()), result', merge)
    {
      if !Live() {
        return AlreadyComplete;
      }
      mergeResponse := merge;
      result := Some(result');
      reply := Done;
    }

    method FinishPanicError(operationId: string, requestId: string, action: nat, message: string)
      requires Valid()
      modifies this
      ensures Valid()
      ensures View() == RecordState.Apply(operationId, old(View()),
                Write.FinishPanicError(requestId, action, message)).0
    {
      if Live() {
        result := Some(FailureResult(operationId, requestId, action, message));
      }
    }

    method Finish(envelope: Envelope) returns (reply: Reply)
      requires Valid()
      modifies this
      ensures Valid()
      ensures forall id :: (View(), reply) == RecordState.Apply(id, old(View()), Write.Finish(envelope))
    {
      if envelope.operationId.None? {
        return MissingOperationId;
      }
      reply := Complete(ResultOf(envelope, envelope.operationId.value), None);
    }

    method FinishError(operationId: string, requestId: string, action: nat, message: string) returns (reply: Reply)
      requires Valid()
      modifies this
      ensures Valid()
      ensures (View(), reply) ==
              RecordState.Apply(operationId, old(View()), Write.FinishError(requestId, action, message))
    {
      reply := Complete(FailureResult(operationId, requestId, action, message), None);
    }

    method FinishModelError(operationId: string, meta: RequestMeta, action: nat, error: ModelError)
      returns (reply: Reply)
      requires Valid()
      modifies this
      ensures Valid()
      ensures (View(), reply) == RecordState.Apply(operationId, old(View()),
                Write.FinishModelError(meta, action, error))
    {
      reply := Complete(ModelErrorResult(operationId, meta, action, error), None);
    }

    method FinishMerge(operationId: string, response: MergeResponse) returns (reply: Reply)
      requires Valid()
      modifies this
      ensures Valid()
      ensures (View(), reply) == RecordState.Apply(operationId, old(View()), Write.FinishMerge(response))
    {
      if response.response.operationId != Some(operationId) {
        return WrongOperationId;
      }
      reply := Complete(ResultOf(response.response, operationId), Some(response));
    }

    /** One turn of the wait for the result. */
    method ReadResult() returns (answer: Option<Result<OperationResult, ModelError>>)
      ensures answer == RecordState.ReadResult(View())
      ensures answer.Some? <==> !Live()
    {
      if result.Some? {
        return Some(Success(result.value));
      }
      if refusal.Some? {
        return Some(Failure(refusal.value));
      }
      answer := None;
    }

    /** One turn of the wait for the typed merge response. */
    method ReadMerge() returns (answer: Option<Result<MergeResponse, MergeFailure>>)
      requires Valid()
      ensures answer == RecordState.ReadMerge(View())
      ensures answer.Some? <==> !Live()
    {
      if mergeResponse.Some? {
        return Some(Success(mergeResponse.value));
      }
      if refusal.Some? {
        return Some(Failure(RefusedWith(refusal.value)));
      }
      if result.Some? {
        return Some(Failure(NoMergeResponse));
      }
      answer := None;
    }

    /** One turn of the wait for events; the caller waits again while there is no answer. */
    method WaitEvents(afterSequence: int, timedOut: bool) returns (answer: Option<(seq<Event>, bool)>)
      ensures AnswersWait(events, !Live(), afterSequence, timedOut, answer)
      ensures answer == WaitTurn(View(), afterSequence, timedOut)
    {
      hide AnswersWait;
      WaitIsAnswered(View(), afterSequence, timedOut);
      var unseen := [];
      var i := 0;
      assert events[i..] == events;
      while i < |events|
        invariant 0 <= i <= |events|
        invariant unseen + Unseen(events[i..], afterSequence) == Unseen(events, afterSequence)
      {
        assert events[i..][1..] == events[i + 1..];
        if events[i].sequence >= afterSequence {
          unseen := unseen + [events[i]];
        }
        i := i + 1;
      }
      assert unseen + [] == unseen;
      if unseen != [] || !Live() || timedOut {
        answer := Some((unseen, !Live()));
      } else {
        answer := None;
      }
    }
  }

  /** What the recorders of one record share: how many there are, and the record. */
  class Writer {
    var handles: nat
    const record: OperationRecord

    constructor (record: OperationRecord)
      ensures this.record == record && handles == 1
    {
      this.record, handles := record, 1;
    }

    method Clone()
      requires handles > 0
      modifies this
      ensures handles == old(handles) + 1
    {
      handles := handles + 1;
    }

    /** Dropping the last recorder ends the record, and dropping any other leaves it alone. */
    method Release()
      requires handles > 0 && record.Valid()
      modifies this, record
      ensures handles == old(handles) - 1 && record.Valid()
      ensures handles == 0 ==> !record.Live() && record.View() == RefuseWith(old(record.View()), ABANDONED)
      ensures handles > 0 ==> record.View() == old(record.View())
    {
      handles := handles - 1;
      if handles == 0 {
        record.Abandon();
      }
    }
  }

  class OperationStore {
    var records: map<string, OperationRecord>

    ghost predicate Valid()
      reads this, records.Values
    {
      && (forall id :: id in records ==> records[id].Valid())
      && (forall a, b :: a in records && b in records && records[a] == records[b] ==> a == b)
    }

    constructor ()
      ensures Valid() && records == map[]
    {
      records := map[];
    }

    /** Refused just while the ID names a live record; otherwise a fresh record takes its place. */
    method Begin(id: string) returns (writer: Option<Writer>)
      requires Valid()
      modifies this
      ensures Valid()
      ensures writer.None? <==> id in old(records) && old(records[id].Live())
      ensures writer.None? ==> records == old(records)
      ensures writer.Some? ==>
                && fresh(writer.value) && fresh(writer.value.record) && writer.value.handles == 1
                && writer.value.record.View() == NEW_RECORD
                && records == old(records)[id := writer.value.record]
    {
      if id in records && records[id].Live() {
        return None;
      }
      var record := new OperationRecord();
      var shared := new Writer(record);
      records := records[id := record];
      writer := Some(shared);
    }
  }
}
