/**
  The condition variable of one record: readers that sleep until there is something for
  them, and writers that notify after they have dropped the record's lock. A sleeping reader
  may wake without cause, and a wait for events may run out of time.
*/
module RecordWakeups {

  import opened Wrappers
  import opened RecordState

  /** What a reader is after: the result, the merge response, or events from a sequence number on. */
  datatype Want = WantsResult | WantsMerge | WantsEvents(afterSequence: int)

  datatype Reading =
    | ResultRead(result: Result<OperationResult, ModelError>)
    | MergeRead(merge: Result<MergeResponse, MergeFailure>)
    | EventsRead(events: seq<Event>, complete: bool)

  /** `at`: how many writes there had been when the answer was given. */
  datatype ReaderPc = Looking(want: Want) | Sleeping(want: Want) | Answered(want: Want, at: nat, reading: Reading)

  datatype Shared = Shared(operationId: string, record: Record, readers: map<nat, ReaderPc>, notifying: set<nat>,
                           writes: seq<Write>)

  datatype Step =
    | Write(writer: nat, write: RecordState.Write)
    | Notify(writer: nat)
    | Ask(reader: nat, want: Want)
    | Look(reader: nat)
    | TimeOut(reader: nat)
    | Wake(reader: nat)

  function New(operationId: string): Shared {
    Shared(operationId, NEW_RECORD, map[], {}, [])
  }

  /** Whether the source goes on to notify after this write: always for an event, and otherwise when it took effect. */
  predicate Notifies(s: Shared, write: RecordState.Write) {
    write.Deliver? || RecordState.Apply(s.operationId, s.record, write).0 != s.record
  }

  /** What a reader's turn answers, if it does. */
  function Read(record: Record, want: Want, timedOut: bool): Option<Reading> {
    match want
    case WantsResult =>
      var result := ReadResult(record);
      if result.Some? then Some(ResultRead(result.value)) else None
    case WantsMerge =>
      var merge := ReadMerge(record);
      if merge.Some? then Some(MergeRead(merge.value)) else None
    case WantsEvents(after) =>
      var answer := WaitTurn(record, after, timedOut);
      if answer.Some? then Some(EventsRead(answer.value.0, answer.value.1)) else None
  }

  /** What a reader waits for has come. */
  predicate Ready(record: Record, want: Want) {
    Read(record, want, false).Some?
  }

  function Turn(s: Shared, want: Want, timedOut: bool): ReaderPc {
    var reading := Read(s.record, want, timedOut);
    if reading.Some? then Answered(want, |s.writes|, reading.value) else Sleeping(want)
  }

  predicate Enabled(s: Shared, step: Step) {
    match step
    case Write(writer, _) => writer !in s.notifying
    case Notify(writer) => writer in s.notifying
    case Ask(reader, _) => reader !in s.readers
    case Look(reader) => reader in s.readers && s.readers[reader].Looking?
    case TimeOut(reader) => reader in s.readers && s.readers[reader].Sleeping? && s.readers[reader].want.WantsEvents?
    case Wake(reader) => reader in s.readers && s.readers[reader].Sleeping?
  }

  function Woken(pc: ReaderPc): ReaderPc {
    if pc.Sleeping? then Looking(pc.want) else pc
  }

  function Apply(s: Shared, step: Step): Shared
    requires Enabled(s, step)
  {
    match step
    case Write(writer, write) =>
      s.(record := RecordState.Apply(s.operationId, s.record, write).0, writes := s.writes + [write],
         notifying := if Notifies(s, write) then s.notifying + {writer} else s.notifying)
    case Notify(writer) =>
      s.(readers := map r | r in s.readers :: Woken(s.readers[r]), notifying := s.notifying - {writer})
    case Ask(reader, want) => s.(readers := s.readers[reader := Looking(want)])
    case Look(reader) =>
      s.(readers := s.readers[reader := Turn(s, s.readers[reader].want, false)])
    case TimeOut(reader) => s.(readers := s.readers[reader := Turn(s, s.readers[reader].want, true)])
    case Wake(reader) => s.(readers := s.readers[reader := Woken(s.readers[reader])])
  }

  ghost predicate Next(s: Shared, t: Shared) {
    exists step :: Enabled(s, step) && t == Apply(s, step)
  }

  ghost predicate Follows(run: seq<Shared>, i: nat)
    requires 0 < i < |run|
  {
    Next(run[i - 1], run[i])
  }

  ghost predicate Run(run: seq<Shared>) {
    |run| > 0 && run[0] == New(run[0].operationId) && forall i :: 0 < i < |run| ==> Follows(run, i)
  }

  // ----- No lost wake-up -----

  ghost predicate SleepsReady(s: Shared) {
    exists r :: r in s.readers && s.readers[r].Sleeping? && Ready(s.record, s.readers[r].want)
  }

  ghost predicate Fits(s: Shared) {
    && s.record == Replay(s.operationId, s.writes)
    && (SleepsReady(s) ==> s.notifying != {})
  }

  lemma WriteFits(s: Shared, writer: nat, write: RecordState.Write)
    requires Fits(s) && Enabled(s, Write(writer, write))
    ensures Fits(Apply(s, Write(writer, write)))
  {
    hide RecordState.Apply, Ready;
    var t := Apply(s, Write(writer, write));
    assert t.writes[..|t.writes| - 1] == s.writes;
    assert writer in s.notifying + {writer};
    if SleepsReady(t) && !Notifies(s, write) {
      assert t.record == s.record;
    }
  }

  lemma StepFits(s: Shared, step: Step)
    requires Fits(s) && Enabled(s, step)
    ensures Fits(Apply(s, step))
  {
    hide Ready, Replay, Turn;
    match step
    case Write(writer, write) => WriteFits(s, writer, write);
    case Look(reader) => TurnSleepsUnready(s, s.readers[reader].want, false);
    case TimeOut(reader) => TurnSleepsUnready(s, s.readers[reader].want, true);
    case _ =>
  }

  lemma TurnSleepsUnready(s: Shared, want: Want, timedOut: bool)
    ensures Turn(s, want, timedOut).Sleeping? ==> Turn(s, want, timedOut) == Sleeping(want) && !Ready(s.record, want)
  {
  }

  lemma {:induction false} RunFits(run: seq<Shared>, i: nat)
    requires Run(run) && i < |run|
    ensures Fits(run[i])
  {
    hide Fits, Enabled, Apply;
    if i == 0 {
      StartFits(run[0].operationId);
    } else {
      RunFits(run, i - 1);
      assert Follows(run, i);
      var step :| Enabled(run[i - 1], step) && run[i] == Apply(run[i - 1], step);
      StepFits(run[i - 1], step);
    }
  }

  lemma StartFits(operationId: string)
    ensures Fits(New(operationId))
  {
  }

  /**
    When no notification is on its way, a reader that sleeps really has to wait: for a result
    or a merge response there is no outcome, and for events there is neither an outcome nor an
    event at or after its number.
  */
  lemma NoReaderSleepsInVain(run: seq<Shared>, i: nat, r: nat)
    requires Run(run) && i < |run| && run[i].notifying == {}
    requires r in run[i].readers && run[i].readers[r].Sleeping?
    ensures
      var s := run[i];
      && FirstTerminal(s.operationId, s.writes).None?
      && (s.readers[r].want.WantsEvents? ==>
            forall k :: 0 <= k < |Delivered(s.operationId, s.writes)| ==>
              Delivered(s.operationId, s.writes)[k].sequence < s.readers[r].want.afterSequence)
  {
    hide Run, Replay;
    RunFits(run, i);
    var s := run[i];
    OutcomeIsFirstTerminal(s.operationId, s.writes);
    assert !Ready(s.record, s.readers[r].want);
    if s.readers[r].want.WantsEvents? {
      NothingUnseen(s.record.events, s.readers[r].want.afterSequence);
    }
  }

  // ----- What is answered -----

  /** An answer is right for the writes there had been when it was given. */
  ghost predicate IsRight(operationId: string, writes: seq<RecordState.Write>, want: Want, reading: Reading) {
    var outcome := FirstTerminal(operationId, writes);
    match want
    case WantsResult =>
      (match outcome
       case Some(Finished(result, _)) => reading == ResultRead(Success(result))
       case Some(Refused(reason)) => reading == ResultRead(Failure(reason))
       case None => false)
    case WantsMerge =>
      (match outcome
       case Some(Finished(_, merge)) =>
         reading == MergeRead(if merge.Some? then Success(merge.value) else Failure(NoMergeResponse))
       case Some(Refused(reason)) => reading == MergeRead(Failure(RefusedWith(reason)))
       case None => false)
    case WantsEvents(after) =>
      && reading.EventsRead? && reading.complete == outcome.Some?
      && ChosenFrom(Delivered(operationId, writes), after, reading.events)
  }

  ghost predicate AnswerIsRight(s: Shared, r: nat)
    requires r in s.readers
  {
    s.readers[r].Answered? ==>
      && s.readers[r].at <= |s.writes|
      && IsRight(s.operationId, s.writes[..s.readers[r].at], s.readers[r].want, s.readers[r].reading)
  }

  ghost predicate AnswersAreRight(s: Shared) {
    forall r :: r in s.readers ==> AnswerIsRight(s, r)
  }

  lemma TurnIsRight(s: Shared, want: Want, timedOut: bool)
    requires s.record == Replay(s.operationId, s.writes)
    ensures Turn(s, want, timedOut).Answered? ==>
              IsRight(s.operationId, s.writes, want, Turn(s, want, timedOut).reading)
  {
    hide WaitTurn, Replay, ChosenFrom;
    OutcomeIsFirstTerminal(s.operationId, s.writes);
    ReadersAgree(s.operationId, s.writes);
    if want.WantsEvents? {
      WaitIsAnswered(s.record, want.afterSequence, timedOut);
    }
  }

  lemma StepIsRight(s: Shared, step: Step)
    requires Fits(s) && AnswersAreRight(s) && Enabled(s, step)
    ensures AnswersAreRight(Apply(s, step))
  {
    hide IsRight, Read, RecordState.Apply, Replay, SleepsReady;
    var t := Apply(s, step);
    match step
    case Write(_, write) =>
      forall r | r in t.readers ensures AnswerIsRight(t, r) {
        assert AnswerIsRight(s, r);
        if t.readers[r].Answered? {
          assert t.writes[..t.readers[r].at] == s.writes[..t.readers[r].at];
        }
      }
    case Look(reader) => TurnKeepsRight(s, reader, false);
    case TimeOut(reader) => TurnKeepsRight(s, reader, true);
    case _ =>
      forall r | r in t.readers ensures AnswerIsRight(t, r) {
        assert r in s.readers ==> AnswerIsRight(s, r);
      }
  }

  lemma TurnKeepsRight(s: Shared, reader: nat, timedOut: bool)
    requires Fits(s) && AnswersAreRight(s) && reader in s.readers && !s.readers[reader].Answered?
    ensures AnswersAreRight(s.(readers := s.readers[reader := Turn(s, s.readers[reader].want, timedOut)]))
  {
    hide IsRight, Read, Replay, SleepsReady;
    TurnIsRight(s, s.readers[reader].want, timedOut);
    assert s.writes[..|s.writes|] == s.writes;
    assert forall r :: r in s.readers ==> AnswerIsRight(s, r);
  }

  lemma {:induction false} AllAreRight(run: seq<Shared>, i: nat)
    requires Run(run) && i < |run|
    ensures AnswersAreRight(run[i])
  {
    hide Fits, Enabled, Apply, AnswerIsRight;
    if i > 0 {
      AllAreRight(run, i - 1);
      RunFits(run, i - 1);
      assert Follows(run, i);
      var step :| Enabled(run[i - 1], step) && run[i] == Apply(run[i - 1], step);
      StepIsRight(run[i - 1], step);
    }
  }

  /**
    In every run each reader's answer is that of the writes there had been when it was given: the
    result, the merge response or the refusal of the first terminal write, or exactly the events
    numbered at or after the reader's number, in order, and whether the operation had ended.
  */
  lemma EveryAnswerIsRight(run: seq<Shared>, i: nat, r: nat)
    requires Run(run) && i < |run| && r in run[i].readers && run[i].readers[r].Answered?
    ensures
      var s := run[i];
      && s.readers[r].at <= |s.writes|
      && IsRight(s.operationId, s.writes[..s.readers[r].at], s.readers[r].want, s.readers[r].reading)
  {
    hide Run, IsRight;
    AllAreRight(run, i);
    assert AnswerIsRight(run[i], r);
  }

  // ----- Waking -----

  /** A reader that could go on has a step under way after which nobody who could go on sleeps. */
  lemma WakingReadersIsOneStepAway(run: seq<Shared>, i: nat)
    requires Run(run) && i < |run| && SleepsReady(run[i])
    ensures exists writer :: Enabled(run[i], Notify(writer)) && !SleepsReady(Apply(run[i], Notify(writer)))
  {
    RunFits(run, i);
    var writer :| writer in run[i].notifying;
    assert Enabled(run[i], Notify(writer));
  }
}
