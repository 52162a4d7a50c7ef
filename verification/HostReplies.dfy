/**
  What a cancel returns, told from the moment it entered: the route it takes is decided there,
  whatever happens after.
*/
module HostReplies {

  import opened Wrappers
  import opened HostState
  import opened HostProtocol
  import HostCancelling
  import HostLedger
  import HostRuns

  datatype Refusal = NotWaitingOrRunning | CannotCancel

  /** What the caller of a cancel gets. */
  function AnswerOf(reply: CancelReply): Result<Cleanup, Refusal> {
    match reply
    case NothingLive => Failure(NotWaitingOrRunning)
    case Unsupported => Failure(CannotCancel)
    case CancelledWaiting(_) => Success(NOTHING)
    case Ended(_, _, cleanup) => Success(cleanup)
    case TimedOut(_) => Success(UNFINISHED)
  }

  /** The registration that a cancel waits for, or waited for. */
  function Awaited(pc: CancelPc): Option<nat> {
    match pc
    case Watching(_, serial) => Some(serial)
    case Sleeping(_, serial) => Some(serial)
    case Replied(Ended(serial, _, _)) => Some(serial)
    case Replied(TimedOut(serial)) => Some(serial)
    case _ => None
  }

  /** The places open to a cancel of `id` that entered when the host was as given. */
  predicate OnRoute(host: Host, id: OperationId, pc: CancelPc) {
    if id !in host.live then pc == Replied(NothingLive)
    else
      var entry := host.live[id];
      if !entry.running then pc == Announcing(entry.serial) || pc == Replied(CancelledWaiting(entry.serial))
      else if entry.canceller.None? then pc == Replied(Unsupported)
      else
        match pc
        case Invoking(other, serial, canceller) =>
          other == id && serial == entry.serial && canceller == entry.canceller.value
        case Watching(other, serial) => other == id && serial == entry.serial
        case Sleeping(other, serial) => other == id && serial == entry.serial
        case Replied(Ended(serial, _, _)) => serial == entry.serial
        case Replied(TimedOut(serial)) => serial == entry.serial
        case _ => false
  }

  lemma OwnMoveStays(host: Host, id: OperationId, s: System, c: nat, move: CancelMove)
    requires CancelEnabled(s, c, move) && !move.Call? && !move.Enter? && OnRoute(host, id, s.cancels[c])
    ensures
      var t := AfterCancel(s, c, move);
      c in t.cancels && OnRoute(host, id, t.cancels[c])
  {
    hide ObserveEnd;
  }

  lemma OthersLeaveIt(s: System, step: Step, c: nat)
    requires Enabled(s, step) && c in s.cancels && !(step.CancelStep? && step.caller == c)
    ensures
      var t := Apply(s, step);
      c in t.cancels && (t.cancels[c] == s.cancels[c] || t.cancels[c] == WokenCancel(s.cancels[c]))
  {
    if step.CancelStep? {
      OtherCancelsLeaveIt(s, step.caller, step.cancelMove, c);
    } else {
      HostCancelling.OthersOnlyWake(s, step);
    }
  }

  lemma OtherCancelsLeaveIt(s: System, caller: nat, move: CancelMove, c: nat)
    requires CancelEnabled(s, caller, move) && c in s.cancels && c != caller
    ensures
      var t := AfterCancel(s, caller, move);
      c in t.cancels && (t.cancels[c] == s.cancels[c] || t.cancels[c] == WokenCancel(s.cancels[c]))
  {
    hide HostState.EnterCancel, ObserveEnd;
  }

  lemma NextStaysOnRoute(host: Host, id: OperationId, s: System, t: System, c: nat)
    requires Next(s, t) && c in s.cancels && OnRoute(host, id, s.cancels[c])
    ensures c in t.cancels && OnRoute(host, id, t.cancels[c])
  {
    var step :| Enabled(s, step) && t == Apply(s, step);
    if step.CancelStep? && step.caller == c {
      OwnMoveStays(host, id, s, c, step.cancelMove);
    } else {
      hide Apply, Enabled;
      OthersLeaveIt(s, step, c);
    }
  }

  /** A cancel leaves its entry only by entering, and is then on the route the host decides. */
  lemma EntryDecidesRoute(s: System, t: System, c: nat)
    requires Next(s, t) && c in s.cancels && s.cancels[c].Calling?
    requires c in t.cancels && !t.cancels[c].Calling?
    ensures OnRoute(s.host, s.cancels[c].id, t.cancels[c])
  {
    var step :| Enabled(s, step) && t == Apply(s, step);
    if step.CancelStep? && step.caller == c {
      assert step.cancelMove.Enter?;
    } else {
      hide Apply, Enabled;
      OthersLeaveIt(s, step, c);
    }
  }

  lemma {:induction false} RunStaysOnRoute(run: seq<System>, i: nat, j: nat, c: nat)
    requires Run(run) && i < j < |run| && c in run[i].cancels && run[i].cancels[c].Calling?
    requires c in run[i + 1].cancels && !run[i + 1].cancels[c].Calling?
    ensures c in run[j].cancels && OnRoute(run[i].host, run[i].cancels[c].id, run[j].cancels[c])
    decreases j
  {
    hide Next, OnRoute;
    assert Follows(run, j);
    if j == i + 1 {
      EntryDecidesRoute(run[i], run[j], c);
    } else {
      RunStaysOnRoute(run, i, j - 1, c);
      NextStaysOnRoute(run[i].host, run[i].cancels[c].id, run[j - 1], run[j], c);
    }
  }

  /** Not while the cancel had yet to enter, so its answer was given in a turn after that. */
  lemma AnswerIsNew(s: System, step: Step, c: nat)
    requires Enabled(s, step) && c in Apply(s, step).cancels && Apply(s, step).cancels[c].Replied?
    requires c in s.cancels && s.cancels[c] != Apply(s, step).cancels[c]
    requires Awaited(Apply(s, step).cancels[c]).Some?
    ensures s.cancels[c].Watching? && Awaited(s.cancels[c]) == Awaited(Apply(s, step).cancels[c])
    ensures AnswersFrom(s, Apply(s, step).cancels[c].reply, s.cancels[c].id)
  {
    if step.CancelStep? && step.caller == c {
      OwnAnswerIsNew(s, c, step.cancelMove);
    } else {
      hide Apply, Enabled;
      OthersLeaveIt(s, step, c);
    }
  }

  /** The state in which a cancel gives up on a live registration, or finds it ended. */
  predicate AnswersFrom(s: System, reply: CancelReply, id: OperationId) {
    match reply
    case TimedOut(serial) => id in s.host.live && s.host.live[id].serial == serial
    case Ended(serial, at, _) => at == |s.ended| && !(id in s.host.live && s.host.live[id].serial == serial)
    case _ => false
  }

  lemma OwnAnswerIsNew(s: System, c: nat, move: CancelMove)
    requires CancelEnabled(s, c, move) && c in s.cancels
    requires
      var t := AfterCancel(s, c, move);
      c in t.cancels && t.cancels[c].Replied? && Awaited(t.cancels[c]).Some? && s.cancels[c] != t.cancels[c]
    ensures s.cancels[c].Watching? && Awaited(s.cancels[c]) == Awaited(AfterCancel(s, c, move).cancels[c])
    ensures AnswersFrom(s, AfterCancel(s, c, move).cancels[c].reply, s.cancels[c].id)
  {
    hide FindLast, WokenTicket, WokenCloser;
  }

  /** The turn in which a cancel that waited gave its answer. */
  lemma {:induction false} AnsweringTurn(run: seq<System>, i: nat, j: nat, c: nat) returns (m: nat)
    requires Run(run) && i < j < |run| && c in run[i].cancels && run[i].cancels[c].Calling?
    requires c in run[i + 1].cancels && !run[i + 1].cancels[c].Calling?
    requires c in run[j].cancels && run[j].cancels[c].Replied? && Awaited(run[j].cancels[c]).Some?
    ensures i < m < j && c in run[m].cancels && run[m].cancels[c].Watching?
    ensures Awaited(run[m].cancels[c]) == Awaited(run[j].cancels[c])
    ensures AnswersFrom(run[m], run[j].cancels[c].reply, run[m].cancels[c].id)
    decreases j
  {
    hide Apply, Enabled, OnRoute, AnswersFrom, Awaited;
    assert Follows(run, j);
    var step :| Enabled(run[j - 1], step) && run[j] == Apply(run[j - 1], step);
    if j == i + 1 {
      EntryIsNoAnswer(run[i], step, c);
    } else {
      RunStaysOnRoute(run, i, j - 1, c);
      if run[j - 1].cancels[c] == run[j].cancels[c] {
        m := AnsweringTurn(run, i, j - 1, c);
      } else {
        AnswerIsNew(run[j - 1], step, c);
        m := j - 1;
      }
    }
  }

  lemma EntryIsNoAnswer(s: System, step: Step, c: nat)
    requires Enabled(s, step) && c in s.cancels && s.cancels[c].Calling?
    requires c in Apply(s, step).cancels && Apply(s, step).cancels[c].Replied?
    ensures Awaited(Apply(s, step).cancels[c]).None?
  {
    if Awaited(Apply(s, step).cancels[c]).Some? {
      AnswerIsNew(s, step, c);
    }
  }

  /** The cancel's bound passed in a turn that still found the registration live. */
  ghost predicate GaveUpAt(run: seq<System>, m: nat, id: OperationId, serial: nat)
    requires m < |run|
  {
    id in run[m].host.live && run[m].host.live[id].serial == serial
  }

  /**
    That turn found the registration gone, and answers with the report of its end, exactly
    unless it left none or 64 later cancelled operations had reported by then.
  */
  ghost predicate AnsweredAt(run: seq<System>, m: nat, id: OperationId, serial: nat, answer: Cleanup)
    requires m < |run|
  {
    var ended := run[m].ended;
    && !(id in run[m].host.live && run[m].host.live[id].serial == serial)
    && exists k :: 0 <= k < |ended| && ended[k].serial == serial
         && answer == if ended[k].cleanup.Some? && |HostLedger.Reported(ended[k + 1..])| < 64
                      then ended[k].cleanup.value else Cleanup(1, false)
  }

  lemma EndedAnswer(run: seq<System>, m: nat, j: nat, c: nat, id: OperationId)
    requires Run(run) && m < j < |run| && c in run[j].cancels && run[j].cancels[c].Replied?
    requires run[j].cancels[c].reply.Ended? && AnswersFrom(run[m], run[j].cancels[c].reply, id)
    ensures AnsweredAt(run, m, id, run[j].cancels[c].reply.serial, run[j].cancels[c].reply.cleanup)
  {
    hide Run, HostRuns.Drained;
    var Ended(serial, at, cleanup) := run[j].cancels[c].reply;
    HostRuns.RunReaches(run, j);
    HostRuns.RunIsLater(run, m, j);
    HostRuns.CancelAnswersForItsOwnRegistration(run[j], c);
    var ended, later := run[m].ended, run[j].ended;
    var k :| 0 <= k < at && later[k].serial == serial && later[k].cancelled && later[k].admitted
             && cleanup == if later[k].cleanup.Some? && |HostLedger.Reported(later[k + 1..at])| < RECORDED_CANCELLATIONS
                           then later[k].cleanup.value else UNFINISHED;
    assert ended == later[..at];
    assert ended[k] == later[k] && ended[k + 1..] == later[k + 1..at];
  }

  /**
    A cancel that entered at step `i` and has returned by step `j` answers as the host stood at
    its entry: an error just when the operation was not live or cannot be cancelled, and nothing
    built for a waiting one. For a running one it answers for an unfinished operation if its
    bound passed while the registration was live, and otherwise with that registration's report.
  */
  lemma CancelIsDecidedOnEntry(run: seq<System>, i: nat, j: nat, c: nat)
    requires Run(run) && i < j < |run| && c in run[i].cancels && run[i].cancels[c].Calling?
    requires c in run[i + 1].cancels && !run[i + 1].cancels[c].Calling?
    ensures c in run[j].cancels
    ensures run[j].cancels[c].Replied? ==>
              var id, live := run[i].cancels[c].id, run[i].host.live;
              var reply := run[j].cancels[c].reply;
              var answer := AnswerOf(reply);
              && (answer == Failure(NotWaitingOrRunning) <==> id !in live)
              && (answer == Failure(CannotCancel) <==> id in live && live[id].running && live[id].canceller.None?)
              && (id in live && !live[id].running ==> answer == Success(Cleanup(0, false)))
              && (id in live && live[id].running && live[id].canceller.Some? ==>
                    && answer.Success?
                    && (reply.TimedOut? ==> answer.value == Cleanup(1, false))
                    && exists m :: i < m < j &&
                         if reply.TimedOut? then GaveUpAt(run, m, id, live[id].serial)
                         else AnsweredAt(run, m, id, live[id].serial, answer.value))
  {
    hide Run, GaveUpAt, AnsweredAt;
    RunStaysOnRoute(run, i, j, c);
    var pc := run[j].cancels[c];
    if pc.Replied? && Awaited(pc).Some? {
      var m := AnsweringTurn(run, i, j, c);
      RunStaysOnRoute(run, i, m, c);
      if pc.reply.Ended? {
        EndedAnswer(run, m, j, c, run[m].cancels[c].id);
        assert AnsweredAt(run, m, run[i].cancels[c].id, pc.reply.serial, pc.reply.cleanup);
      } else {
        GivesUp(run, m, run[m].cancels[c].id, pc.reply);
        assert GaveUpAt(run, m, run[i].cancels[c].id, pc.reply.serial);
      }
    }
  }

  lemma GivesUp(run: seq<System>, m: nat, id: OperationId, reply: CancelReply)
    requires m < |run| && reply.TimedOut? && AnswersFrom(run[m], reply, id)
    ensures GaveUpAt(run, m, id, reply.serial)
  {
  }
}
