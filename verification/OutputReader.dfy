/**
  Reading an operation's output log to its end, a slice at a time, and letting go
  of it on every way out. A consumer may stop at any record it has been given.
*/
module OutputReader {
  import opened Wrappers

  const LOG_MAX_RECORDS: nat := 128

  const DIFF_MAX_RECORDS: nat := 64

  datatype Exit = Ended | Stopped | ReadFailed

  datatype ReadState = Data | Eof | Unknown

  /** A commit-log spool: a read returns the next non-empty slice until the end, or fails; `broken` is its history. */
  class Spool<T> {
    const log: seq<T>
    var releases: nat
    ghost var broken: bool

    constructor (log: seq<T>)
      ensures this.log == log && releases == 0 && !broken
    {
      this.log, releases, broken := log, 0, false;
    }

    method Read(cursor: Option<nat>, maxRecords: nat)
      returns (failed: bool, records: seq<T>, nextCursor: nat, state: ReadState)
      requires cursor.GetOr(0) <= |log| && maxRecords > 0
      modifies this`broken
      ensures broken <==> old(broken) || failed || state == Unknown
      ensures !failed && state == Data ==>
                && cursor.GetOr(0) < nextCursor <= |log| && nextCursor - cursor.GetOr(0) <= maxRecords
                && records == log[cursor.GetOr(0)..nextCursor]
      ensures !failed && state == Eof ==> cursor.GetOr(0) == |log|
    {
      var start := cursor.GetOr(0);
      failed, records, nextCursor, state := *, [], start, Unknown;
      if start == |log| {
        state := Eof;
      } else if * {
        nextCursor :| start < nextCursor <= |log| && nextCursor - start <= maxRecords;
        records, state := log[start..nextCursor], Data;
      }
      broken := broken || failed || state == Unknown;
    }

    method Release()
      modifies this`releases
      ensures releases == old(releases) + 1
    {
      releases := releases + 1;
    }
  }

  /**
    `log_output`, as far as its consumer lets it run: `demand` is how many records
    the consumer takes before it closes the generator, if it ever does. A generator
    that is closed before its first record runs no part of its body. It fails just when
    a read did, and otherwise yields the whole log to a consumer that takes it all.
  */
  method LogOutput<T>(spool: Spool<T>, demand: Option<nat>) returns (yielded: seq<T>, exit: Exit)
    requires !spool.broken
    modifies spool
    ensures exit == ReadFailed <==> spool.broken
    ensures !spool.broken && (demand.Some? ==> |spool.log| < demand.value) ==> yielded == spool.log
    ensures yielded <= spool.log
    ensures exit == Ended ==> yielded == spool.log
    ensures exit == Stopped ==> demand == Some(|yielded|)
    ensures demand.Some? ==> |yielded| <= demand.value
    ensures spool.releases == old(spool.releases) + if demand == Some(0) then 0 else 1
  {
    if demand == Some(0) {
      return [], Stopped;
    }
    yielded, exit := ReadLog(spool, demand);
    spool.Release();
  }

  /** The body the generator's `finally` guards: what is left of the log decreases with each slice. */
  method ReadLog<T>(spool: Spool<T>, demand: Option<nat>) returns (yielded: seq<T>, exit: Exit)
    requires demand != Some(0) && !spool.broken
    modifies spool`broken
    ensures exit == ReadFailed <==> spool.broken
    ensures yielded <= spool.log
    ensures exit == Ended ==> yielded == spool.log
    ensures exit == Stopped ==> demand == Some(|yielded|)
    ensures demand.Some? ==> |yielded| <= demand.value
  {
    yielded := [];
    var cursor: Option<nat> := None;
    while true
      invariant cursor.GetOr(0) <= |spool.log| && yielded == spool.log[..cursor.GetOr(0)]
      invariant demand.Some? ==> |yielded| < demand.value
      invariant !spool.broken
      decreases |spool.log| - cursor.GetOr(0)
    {
      var failed, records, nextCursor, state := spool.Read(cursor, LOG_MAX_RECORDS);
      if failed || state == Unknown {
        return yielded, ReadFailed;
      }
      if state == Eof {
        return yielded, Ended;
      }
      cursor := Some(nextCursor);
      var stopped: bool;
      yielded, stopped := YieldRecords(yielded, records, demand);
      if stopped {
        return yielded, Stopped;
      }
    }
  }

  /** The records of one slice, each given to a consumer that may close the generator at it. */
  method YieldRecords<T>(before: seq<T>, records: seq<T>, demand: Option<nat>) returns (yielded: seq<T>, stopped: bool)
    requires demand.Some? ==> |before| < demand.value
    ensures before <= yielded <= before + records
    ensures stopped <==> demand.Some? && |before + records| >= demand.value
    ensures stopped ==> |yielded| == demand.value
    ensures !stopped ==> yielded == before + records
  {
    yielded := before;
    var i := 0;
    while i < |records|
      invariant 0 <= i <= |records| && yielded == before + records[..i]
      invariant demand.Some? ==> |yielded| < demand.value
    {
      yielded := yielded + [records[i]];
      i := i + 1;
      if demand == Some(|yielded|) {
        return yielded, true;
      }
    }
    stopped := false;
  }

  // ----- The byte stream of a diff -----

  datatype StreamState = StreamData | Expired | WouldBlock | StreamEof | StreamClosed | StreamFailed | StreamUnknown

  datatype Answer<T> = Answer(state: StreamState, records: seq<T>, nextCursor: nat)

  /** One answer as the stream's contract has it, to a read at `cursor`. */
  ghost predicate Fits<T(!new)>(log: seq<T>, cursor: nat, answer: Answer<T>) {
    && cursor <= answer.nextCursor <= |log|
    && match answer.state
       case StreamData => answer.records == log[cursor..answer.nextCursor] && answer.records != []
       case Expired => cursor < answer.nextCursor
       case WouldBlock => answer.nextCursor == cursor
       case StreamEof => cursor == |log|
       case _ => true
  }

  /** Answers to reads that each start at the cursor the one before returned. */
  ghost predicate Answers<T(!new)>(log: seq<T>, cursor: nat, answers: seq<Answer<T>>)
    decreases |answers|
  {
    answers == [] || (Fits(log, cursor, answers[0]) && Answers(log, answers[0].nextCursor, answers[1..]))
  }

  function CursorAfter<T>(cursor: nat, answers: seq<Answer<T>>): nat {
    if answers == [] then cursor else answers[|answers| - 1].nextCursor
  }

  lemma {:induction false} AnswersExtend<T(!new)>(log: seq<T>, cursor: nat, answers: seq<Answer<T>>, answer: Answer<T>)
    requires Answers(log, cursor, answers) && Fits(log, CursorAfter(cursor, answers), answer)
    ensures Answers(log, cursor, answers + [answer])
    decreases |answers|
  {
    if answers != [] {
      assert (answers + [answer])[1..] == answers[1..] + [answer];
      AnswersExtend(log, answers[0].nextCursor, answers[1..], answer);
    }
  }

  /** The records a reader is owed: every slice served, and nothing of what expired before it was read. */
  function Served<T>(answers: seq<Answer<T>>): seq<T> {
    if answers == [] then []
    else if answers[0].state == StreamData then answers[0].records + Served(answers[1..])
    else if answers[0].state == Expired || answers[0].state == WouldBlock then Served(answers[1..])
    else []
  }

  /** A position that had expired before the reader got to it. */
  predicate ExpiredAt<T>(answers: seq<Answer<T>>, cursor: nat, p: nat) {
    answers != [] &&
    ((answers[0].state == Expired && cursor <= p < answers[0].nextCursor) ||
     ExpiredAt(answers[1..], answers[0].nextCursor, p))
  }

  predicate Terminal(state: StreamState) {
    state == StreamEof || state == StreamClosed || state == StreamFailed || state == StreamUnknown
  }

  ghost function Range(start: nat, n: nat): (positions: seq<nat>)
    ensures |positions| == n && forall i :: 0 <= i < n ==> positions[i] == start + i
  {
    seq(n, i requires 0 <= i => start + i)
  }

  /** The positions of the log a reader was served, in the order it was served them. */
  ghost function Positions<T>(answers: seq<Answer<T>>, cursor: nat): seq<nat>
    decreases |answers|
  {
    if answers == [] || Terminal(answers[0].state) then []
    else if answers[0].state == StreamData
    then Range(cursor, |answers[0].records|) + Positions(answers[1..], answers[0].nextCursor)
    else Positions(answers[1..], answers[0].nextCursor)
  }

  /** How many answers made the reader wait. */
  function Blocked<T>(answers: seq<Answer<T>>): nat {
    if answers == [] then 0 else (if answers[0].state == WouldBlock then 1 else 0) + Blocked(answers[1..])
  }

  predicate GoesOn<T>(answers: seq<Answer<T>>) {
    forall i :: 0 <= i < |answers| ==> !Terminal(answers[i].state)
  }

  predicate Unexpired<T>(answers: seq<Answer<T>>) {
    forall i :: 0 <= i < |answers| ==> answers[i].state != Expired
  }

  /** The stream came to its end, and nothing before had ended it. */
  predicate ReachesEof<T>(answers: seq<Answer<T>>) {
    answers != [] && answers[|answers| - 1].state == StreamEof && GoesOn(answers[..|answers| - 1])
  }

  /** At the end every record has been served or had expired. */
  lemma {:induction false} AllServedOrExpired<T(!new)>(log: seq<T>, cursor: nat, answers: seq<Answer<T>>, p: nat)
    requires cursor <= |log| && Answers(log, cursor, answers) && ReachesEof(answers) && cursor <= p < |log|
    ensures p in Positions(answers, cursor) || ExpiredAt(answers, cursor, p)
    decreases |answers|
  {
    assert |answers| > 1 ==> answers[0] == answers[..|answers| - 1][0];
    var next, rest := answers[0].nextCursor, answers[1..];
    assert rest != [] ==> rest[..|rest| - 1] == answers[..|answers| - 1][1..];
    if p < next {
      if answers[0].state == StreamData {
        assert Positions(answers, cursor)[p - cursor] == p;
      }
    } else {
      AllServedOrExpired(log, next, rest, p);
    }
  }

  /** Only answers that make the reader wait can keep it: every other one moves the cursor on. */
  lemma {:induction false} ReadsAreBounded<T(!new)>(log: seq<T>, cursor: nat, answers: seq<Answer<T>>)
    requires cursor <= |log| && Answers(log, cursor, answers) && GoesOn(answers)
    ensures |answers| <= |log| - cursor + Blocked(answers)
    decreases |answers|
  {
    if answers != [] {
      ReadsAreBounded(log, answers[0].nextCursor, answers[1..]);
    }
  }

  /** At the end with nothing expired, what was served is the rest of the log. */
  lemma {:induction false} ServedToTheEnd<T(!new)>(log: seq<T>, cursor: nat, answers: seq<Answer<T>>)
    requires cursor <= |log| && Answers(log, cursor, answers) && ReachesEof(answers)
    requires Unexpired(answers)
    ensures Served(answers) == log[cursor..]
    decreases |answers|
  {
    if |answers| > 1 {
      var rest := answers[1..];
      assert answers[0] == answers[..|answers| - 1][0];
      assert rest[..|rest| - 1] == answers[..|answers| - 1][1..];
      ServedToTheEnd(log, answers[0].nextCursor, rest);
    }
  }

  lemma {:induction false} ServedExtends<T>(answers: seq<Answer<T>>, answer: Answer<T>)
    requires GoesOn(answers)
    ensures Served(answers + [answer]) == Served(answers) + if answer.state == StreamData then answer.records else []
  {
    if answers == [] {
      assert [answer][1..] == [];
    } else {
      assert (answers + [answer])[1..] == answers[1..] + [answer];
      ServedExtends(answers[1..], answer);
    }
  }

  /** A diff's stream: a read answers as the contract allows, or fails; `answered` and `broken` are its history. */
  class DiffStream<T(!new)> {
    const log: seq<T>
    ghost var answered: seq<Answer<T>>
    ghost var broken: bool
    var endings: nat

    constructor (log: seq<T>)
      ensures this.log == log && answered == [] && !broken && endings == 0
    {
      this.log, answered, broken, endings := log, [], false, 0;
    }

    method Read(cursor: Option<nat>, maxRecords: nat) returns (failed: bool, answer: Answer<T>)
      requires cursor.GetOr(0) <= |log| && maxRecords > 0
      modifies this`answered, this`broken
      ensures broken <==> old(broken) || failed
      ensures failed ==> answered == old(answered)
      ensures !failed ==> Fits(log, cursor.GetOr(0), answer) && answered == old(answered) + [answer]
      ensures !failed && answer.state == StreamData ==> |answer.records| <= maxRecords
    {
      var start := cursor.GetOr(0);
      failed := *;
      var state: StreamState := *;
      var next: nat := *;
      if start < next <= |log| && next - start <= maxRecords && state == StreamData {
        answer := Answer(StreamData, log[start..next], next);
      } else if start < next <= |log| && state == Expired {
        answer := Answer(Expired, [], next);
      } else if state == StreamData || state == Expired || (state == StreamEof && start < |log|) {
        answer := Answer(WouldBlock, [], start);
      } else {
        answer := Answer(state, [], start);
      }
      broken := broken || failed;
      if !failed {
        answered := answered + [answer];
      }
    }

    method End()
      modifies this`endings
      ensures endings == old(endings) + 1
    {
      endings := endings + 1;
    }
  }

  /**
    `diff_output` for `patience` reads, as far as its consumer lets it run: each read
    starts where the last answer said, so it yields what it was served and nothing
    else; while nothing has expired that is a prefix of the log, wherever the reading
    stopped. A stream that comes to its end has been delivered whole but for what had
    expired; only answers that make it wait can use up its patience; and it ends its
    stream once on every way out, a failed read among them.
  */
  method DiffOutput<T(!new)>(stream: DiffStream<T>, demand: Option<nat>, patience: nat)
    returns (yielded: seq<T>, exit: Exit, waiting: bool)
    requires stream.answered == [] && !stream.broken
    modifies stream
    ensures !waiting && exit == ReadFailed <==> Fails(stream)
    ensures waiting ==> |stream.answered| == patience && GoesOn(stream.answered)
    ensures Answers(stream.log, 0, stream.answered)
    ensures yielded <= Served(stream.answered)
    ensures demand.Some? ==> |yielded| <= demand.value
    ensures waiting ==> yielded == Served(stream.answered) && stream.endings == old(stream.endings)
    ensures !waiting ==> stream.endings == old(stream.endings) + if demand == Some(0) then 0 else 1
    ensures !waiting && exit == Stopped ==> demand == Some(|yielded|)
    ensures !waiting && exit != Stopped ==> yielded == Served(stream.answered)
    ensures !waiting && exit == Ended ==> ReachesEof(stream.answered) || EndsWith(stream.answered, StreamClosed)
    ensures !waiting && exit == Ended && ReachesEof(stream.answered) ==> Delivered(stream.log, stream.answered, yielded)
    ensures Unexpired(stream.answered) ==> yielded <= stream.log
    ensures waiting ==> patience <= |stream.log| + Blocked(stream.answered)
  {
    yielded, exit, waiting := [], Stopped, false;
    if demand == Some(0) {
      return;
    }
    yielded, exit, waiting := ReadStream(stream, demand, patience);
    if !waiting {
      stream.End();
    }
    if Unexpired(stream.answered) {
      ServedIsTheLog(stream.log, 0, stream.answered);
    }
    if ReachesEof(stream.answered) {
      EofDelivers(stream.log, stream.answered);
    }
    if waiting {
      ReadsAreBounded(stream.log, 0, stream.answered);
    }
  }

  /** A read failed, or answered that the stream had, or what no reader knows. */
  ghost predicate Fails<T(!new)>(stream: DiffStream<T>)
    reads stream
  {
    stream.broken || EndsWith(stream.answered, StreamFailed) || EndsWith(stream.answered, StreamUnknown)
  }

  predicate EndsWith<T>(answers: seq<Answer<T>>, state: StreamState) {
    answers != [] && answers[|answers| - 1].state == state
  }

  /** The whole log once and in order, less only what had expired; all of it when nothing had. */
  ghost predicate Delivered<T(!new)>(log: seq<T>, answers: seq<Answer<T>>, yielded: seq<T>) {
    && |yielded| == |Positions(answers, 0)|
    && (forall i :: 0 <= i < |yielded| ==>
          Positions(answers, 0)[i] < |log| && yielded[i] == log[Positions(answers, 0)[i]])
    && (forall i, j :: 0 <= i < j < |yielded| ==> Positions(answers, 0)[i] < Positions(answers, 0)[j])
    && (forall p: nat :: p < |log| ==> p in Positions(answers, 0) || ExpiredAt(answers, 0, p))
    && (Unexpired(answers) ==> yielded == log)
  }

  lemma EofDelivers<T(!new)>(log: seq<T>, answers: seq<Answer<T>>)
    requires Answers(log, 0, answers) && ReachesEof(answers)
    ensures Delivered(log, answers, Served(answers))
  {
    hide Answers, Positions, Served, ReachesEof, ExpiredAt;
    ServedAtPositions(log, 0, answers);
    PositionsIncrease(log, 0, answers);
    forall p: nat | p < |log| ensures p in Positions(answers, 0) || ExpiredAt(answers, 0, p) {
      AllServedOrExpired(log, 0, answers, p);
    }
    if Unexpired(answers) {
      ServedToTheEnd(log, 0, answers);
    }
  }

  /** The body the generator's `finally` guards. */
  method ReadStream<T(!new)>(stream: DiffStream<T>, demand: Option<nat>, patience: nat)
    returns (yielded: seq<T>, exit: Exit, waiting: bool)
    requires stream.answered == [] && !stream.broken && demand != Some(0)
    modifies stream`answered, stream`broken
    ensures !waiting && exit == ReadFailed <==> Fails(stream)
    ensures Answers(stream.log, 0, stream.answered)
    ensures yielded <= Served(stream.answered)
    ensures demand.Some? ==> |yielded| <= demand.value
    ensures waiting || exit != Stopped ==> yielded == Served(stream.answered)
    ensures !waiting && exit == Stopped ==> demand == Some(|yielded|)
    ensures !waiting && exit == Ended ==> ReachesEof(stream.answered) || EndsWith(stream.answered, StreamClosed)
    ensures waiting ==> |stream.answered| == patience && GoesOn(stream.answered)
  {
    yielded, exit, waiting := [], Stopped, false;
    var cursor: Option<nat> := None;
    for turn := 0 to patience
      invariant Answers(stream.log, 0, stream.answered) && yielded == Served(stream.answered)
      invariant |stream.answered| == turn && GoesOn(stream.answered) && !stream.broken
      invariant cursor.GetOr(0) == CursorAfter(0, stream.answered) <= |stream.log|
      invariant demand.Some? ==> |yielded| < demand.value
    {
      ghost var before := stream.answered;
      var failed, answer := stream.Read(cursor, DIFF_MAX_RECORDS);
      if failed {
        exit := ReadFailed;
        return;
      }
      AnswersExtend(stream.log, 0, before, answer);
      ServedExtends(before, answer);
      cursor := Some(answer.nextCursor);
      if answer.state == StreamData {
        var stopped: bool;
        yielded, stopped := YieldRecords(yielded, answer.records, demand);
        if stopped {
          return;
        }
      } else if Terminal(answer.state) {
        exit := if answer.state == StreamEof || answer.state == StreamClosed then Ended else ReadFailed;
        assert stream.answered[..|stream.answered| - 1] == before;
        return;
      }
    }
    waiting := true;
  }

  /** Without an expiry a reader is owed an unbroken stretch of the log. */
  lemma {:induction false} ServedIsTheLog<T(!new)>(log: seq<T>, cursor: nat, answers: seq<Answer<T>>)
    requires cursor <= |log| && Answers(log, cursor, answers)
    requires Unexpired(answers)
    ensures |Served(answers)| <= |log| - cursor && Served(answers) == log[cursor..cursor + |Served(answers)|]
    decreases |answers|
  {
    if answers != [] {
      var next := answers[0].nextCursor;
      if !Terminal(answers[0].state) {
        assert forall i :: 0 <= i < |answers| - 1 ==> answers[1..][i] == answers[i + 1];
        ServedIsTheLog(log, next, answers[1..]);
        if answers[0].state == StreamData {
          assert log[cursor..cursor + |Served(answers)|] ==
                 log[cursor..next] + log[next..next + |Served(answers[1..])|];
        }
      }
    }
  }

  /** What was served is the log's own, at these positions. */
  lemma {:induction false} ServedAtPositions<T(!new)>(log: seq<T>, cursor: nat, answers: seq<Answer<T>>)
    requires cursor <= |log| && Answers(log, cursor, answers)
    ensures |Positions(answers, cursor)| == |Served(answers)|
    ensures forall i :: 0 <= i < |Positions(answers, cursor)| ==>
              && cursor <= Positions(answers, cursor)[i] < |log|
              && Served(answers)[i] == log[Positions(answers, cursor)[i]]
    decreases |answers|
  {
    if answers != [] && !Terminal(answers[0].state) {
      ServedAtPositions(log, answers[0].nextCursor, answers[1..]);
    }
  }

  /** Nothing is served twice, or out of the log's order. */
  lemma {:induction false} PositionsIncrease<T(!new)>(log: seq<T>, cursor: nat, answers: seq<Answer<T>>)
    requires cursor <= |log| && Answers(log, cursor, answers)
    ensures forall i, j :: 0 <= i < j < |Positions(answers, cursor)| ==>
              Positions(answers, cursor)[i] < Positions(answers, cursor)[j]
    decreases |answers|
  {
    if answers != [] && !Terminal(answers[0].state) {
      ServedAtPositions(log, answers[0].nextCursor, answers[1..]);
      PositionsIncrease(log, answers[0].nextCursor, answers[1..]);
    }
  }

  /** A record passed over on the way to one that was served had expired. */
  lemma {:induction false} OnlyTheExpiredIsPassedOver<T(!new)>(
      log: seq<T>, cursor: nat, answers: seq<Answer<T>>, p: nat, i: nat)
    requires cursor <= |log| && Answers(log, cursor, answers)
    requires i < |Positions(answers, cursor)| && cursor <= p < Positions(answers, cursor)[i]
    ensures p in Positions(answers, cursor) || ExpiredAt(answers, cursor, p)
    decreases |answers|
  {
    var next, rest := answers[0].nextCursor, Positions(answers[1..], answers[0].nextCursor);
    var n := |Positions(answers, cursor)| - |rest|;
    if p < next {
      if answers[0].state == StreamData {
        assert Positions(answers, cursor)[p - cursor] == p;
      }
    } else {
      OnlyTheExpiredIsPassedOver(log, next, answers[1..], p, i - n);
    }
  }
}
