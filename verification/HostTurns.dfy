/**
  What each turn under the host's lock decides, told from the state it finds, and what that
  comes to over a run: who is refused and who waits for a slot, what a cancel and a close wait
  for, and what a close that was not cut short leaves behind.
*/
module HostTurns {
  import opened Wrappers
  import opened HostState
  import opened HostProtocol
  import opened HostLedger
  import opened HostClosing
  import opened HostCancelling
  import CloseReports
  import opened HostReplies
  import HostCalls
  import HostRuns
  import HostWakeups

  /** `run[i]` takes this step to the state after it. */
  ghost predicate Steps(run: seq<System>, i: nat, step: Step) {
    Run(run) && i + 1 < |run| && Enabled(run[i], step) && run[i + 1] == Apply(run[i], step)
  }

  // ----- Registration -----

  /** A registration is a fresh waiting entry with the canceller it was given, under the next serial number. */
  lemma RegistrationTurn(s: System, id: OperationId, canceller: Option<Canceller>)
    ensures Enabled(s, HostProtocol.Register(id, canceller)) <==> !s.host.closing && id !in s.host.live
    ensures Enabled(s, HostProtocol.Register(id, canceller)) ==>
              var t, serial := Apply(s, HostProtocol.Register(id, canceller)), s.host.registered + 1;
              && t.host == s.host.(registered := serial,
                                   live := s.host.live[id := Live(serial, false, false, canceller)])
              && t == s.(host := t.host, tickets := s.tickets[serial := Ticket(id, false, false, Fresh)])
  {
  }

  /** Every thread that has not come to its end can take a step; one that sleeps can at least be woken. */
  lemma NoThreadIsStuck(s: System)
    ensures forall serial :: serial in s.tickets && s.tickets[serial].pc != Dropped ==>
              exists move :: Enabled(s, TicketStep(serial, move)) && (move.Wake? <==> s.tickets[serial].pc == Asleep)
    ensures forall c :: c in s.cancels && !s.cancels[c].Replied? ==>
              exists move :: Enabled(s, CancelStep(c, move)) && (move.Rouse? <==> s.cancels[c].Sleeping?)
    ensures forall c :: c in s.closes && !s.closes[c].pc.Closed? ==>
              exists move :: Enabled(s, CloseStep(c, move)) &&
                (move.RouseCloser? <==> s.closes[c].pc.FirstSleeping? || s.closes[c].pc.LaterSleeping?)
  {
    forall serial | serial in s.tickets && s.tickets[serial].pc != Dropped
      ensures exists move :: Enabled(s, TicketStep(serial, move)) && (move.Wake? <==> s.tickets[serial].pc == Asleep)
    {
      var move := match s.tickets[serial].pc
                  case Asleep => Wake
                  case Notifying => NotifyEnded
                  case Checking => Admit
                  case _ => Drop;
      assert Enabled(s, TicketStep(serial, move));
    }
    forall c | c in s.cancels && !s.cancels[c].Replied?
      ensures exists move :: Enabled(s, CancelStep(c, move)) && (move.Rouse? <==> s.cancels[c].Sleeping?)
    {
      var move := match s.cancels[c]
                  case Calling(_) => Enter
                  case Announcing(_) => HostProtocol.NotifyCancelled
                  case Invoking(_, _, _) => Invoke
                  case Watching(_, _) => Watch(false)
                  case _ => Rouse;
      assert Enabled(s, CancelStep(c, move));
    }
    forall c | c in s.closes && !s.closes[c].pc.Closed?
      ensures exists move :: Enabled(s, CloseStep(c, move)) &&
                (move.RouseCloser? <==> s.closes[c].pc.FirstSleeping? || s.closes[c].pc.LaterSleeping?)
    {
      var move := CloserGoesOn(s, c);
    }
  }

  lemma CloserGoesOn(s: System, c: nat) returns (move: CloseMove)
    requires c in s.closes && !s.closes[c].pc.Closed?
    ensures Enabled(s, CloseStep(c, move))
    ensures move.RouseCloser? <==> s.closes[c].pc.FirstSleeping? || s.closes[c].pc.LaterSleeping?
  {
    match s.closes[c].pc
    case Entering => move := EnterClose;
    case FirstAnnouncing(_) => move := NotifyClosing;
    case FirstInvoking(calls) =>
      if call :| call in calls {
        move := InvokeOne(call);
      } else {
        move := WatchEmpty(false);
      }
    case FirstWatching => move := WatchEmpty(false);
    case FirstPublished(_) => move := NotifyPublished;
    case LaterWatching => move := WatchReport(false);
    case Returning(_, _) => move := CheckIdle;
    case _ => move := RouseCloser;
  }

  // ----- Admission -----

  /** A turn of the admission loop refuses, admits or waits: only a mark or a close refuses, only eight make it wait. */
  lemma AdmissionTurn(s: System, serial: nat)
    requires Reachable(s) && TicketEnabled(s, serial, Admit)
    ensures
      var t := Apply(s, TicketStep(serial, Admit));
      var id := s.tickets[serial].id;
      && id in s.host.live && s.host.live[id].serial == serial
      && var entry := s.host.live[id];
         && (t.tickets[serial].pc == Refused <==> s.host.closing || entry.cancelled)
         && (t.tickets[serial].pc == Running <==> !s.host.closing && !entry.cancelled && s.host.running < 8)
         && (t.tickets[serial].pc == Asleep <==> !s.host.closing && !entry.cancelled && s.host.running == 8)
         && t.tickets[serial].admitted == (t.tickets[serial].pc == Running)
         && t.host == if t.tickets[serial].pc != Running then s.host
                      else s.host.(running := s.host.running + 1,
                                   live := s.host.live[id := entry.(running := true)])
  {
    hide ClosingFits, CancelsFit, HostCalls.CallsFit, HostWakeups.NoLostWakeup, HistoryFits, Accounted, Reachable;
    HostRuns.ReachableIsInvariant(s);
    assert PcFits(s.tickets[serial]);
    assert Holds(s.host.live, serial, s.tickets[serial]);
  }

  /** The host is closing, or the registration has been cancelled. */
  ghost predicate HasCause(s: System, serial: nat)
    requires serial in s.tickets
  {
    s.host.closing || CancelMarked(s.host.live, s.tickets[serial].id, serial)
  }

  lemma OnlyAdmissionRefuses(s: System, step: Step, serial: nat)
    requires Enabled(s, step) && serial in Apply(s, step).tickets && Apply(s, step).tickets[serial].pc == Refused
    ensures serial in s.tickets
    ensures s.tickets[serial].pc == Refused || step == TicketStep(serial, Admit)
  {
    match step
    case TicketStep(other, move) => TicketRefuses(s, other, move, serial);
    case CancelStep(caller, move) => CancelRefusesNobody(s, caller, move, serial);
    case CloseStep(closer, move) => CloseRefusesNobody(s, closer, move, serial);
    case _ =>
  }

  lemma TicketRefuses(s: System, other: nat, move: TicketMove, serial: nat)
    requires TicketEnabled(s, other, move) && serial in AfterTicket(s, other, move).tickets
    requires AfterTicket(s, other, move).tickets[serial].pc == Refused
    ensures serial in s.tickets && (s.tickets[serial].pc == Refused || (other == serial && move.Admit?))
  {
    hide TryAdmit, End, WokenCancel, WokenCloser;
  }

  lemma CancelRefusesNobody(s: System, caller: nat, move: CancelMove, serial: nat)
    requires CancelEnabled(s, caller, move) && serial in AfterCancel(s, caller, move).tickets
    requires AfterCancel(s, caller, move).tickets[serial].pc == Refused
    ensures serial in s.tickets && s.tickets[serial].pc == Refused
  {
    hide HostState.EnterCancel, ObserveEnd, WokenCancel, WokenCloser;
  }

  lemma CloseRefusesNobody(s: System, closer: nat, move: CloseMove, serial: nat)
    requires CloseEnabled(s, closer, move) && serial in AfterClose(s, closer, move).tickets
    requires AfterClose(s, closer, move).tickets[serial].pc == Refused
    ensures serial in s.tickets && s.tickets[serial].pc == Refused
  {
    hide BeginClose, Publish, LaterReport, RunningCancellers, WokenCancel, WokenCloser;
  }

  lemma CauseStays(run: seq<System>, i: nat, serial: nat)
    requires Run(run) && 0 < i < |run| && serial in run[i - 1].tickets && HasCause(run[i - 1], serial)
    ensures serial in run[i].tickets && (run[i].tickets[serial].ended || HasCause(run[i], serial))
  {
    hide ClosingFits, CancelsFit, HostCalls.CallsFit, HostWakeups.NoLostWakeup, Apply, Enabled;
    HostRuns.RunKeepsInvariant(run, i - 1);
    HostRuns.RunStepIsLater(run, i);
    assert Follows(run, i);
    var step :| Enabled(run[i - 1], step) && run[i] == Apply(run[i - 1], step);
    StepAdvances(run[i - 1], step);
    assert TicketAdvances(run[i - 1], run[i], serial);
  }

  /** Whoever was refused was cancelled while it waited, or its host is closing. */
  lemma {:induction false} RefusedForCause(run: seq<System>, i: nat, serial: nat)
    requires Run(run) && i < |run| && serial in run[i].tickets && run[i].tickets[serial].pc == Refused
    ensures run[i].host.closing || CancelMarked(run[i].host.live, run[i].tickets[serial].id, serial)
  {
    hide Apply, Enabled, HostRuns.Invariant, CancelMarked;
    assert i > 0;
    assert Follows(run, i);
    var step :| Enabled(run[i - 1], step) && run[i] == Apply(run[i - 1], step);
    OnlyAdmissionRefuses(run[i - 1], step, serial);
    if run[i - 1].tickets[serial].pc == Refused {
      RefusedForCause(run, i - 1, serial);
    } else {
      HostRuns.RunReaches(run, i - 1);
      RefusingTurn(run[i - 1], serial);
    }
    CauseStays(run, i, serial);
    RefusedHasNotEnded(run, i, serial);
  }

  lemma ReachedRefusedForCause(s: System, serial: nat)
    requires Reachable(s) && serial in s.tickets && s.tickets[serial].pc == Refused
    ensures HasCause(s, serial)
  {
    var run :| Run(run) && run[|run| - 1] == s;
    RefusedForCause(run, |run| - 1, serial);
  }

  lemma RefusedHasNotEnded(run: seq<System>, i: nat, serial: nat)
    requires Run(run) && i < |run| && serial in run[i].tickets && run[i].tickets[serial].pc == Refused
    ensures !run[i].tickets[serial].ended
  {
    HostRuns.RunKeepsInvariant(run, i);
    assert PcFits(run[i].tickets[serial]);
  }

  lemma RefusingTurn(s: System, serial: nat)
    requires Reachable(s) && Enabled(s, TicketStep(serial, Admit))
    requires serial in Apply(s, TicketStep(serial, Admit)).tickets
    requires Apply(s, TicketStep(serial, Admit)).tickets[serial].pc == Refused
    ensures HasCause(s, serial)
  {
    hide Apply;
    AdmissionTurn(s, serial);
  }

  // ----- The end of an operation -----

  /** An end takes out the registration, frees the slot and goes into the history with the report it left. */
  lemma EndIsRecorded(s: System, serial: nat, cleanup: Option<Cleanup>)
    requires Reachable(s) && TicketEnabled(s, serial, Finish(cleanup))
    ensures
      var t := Apply(s, TicketStep(serial, Finish(cleanup)));
      var ticket := s.tickets[serial];
      && ticket.id in s.host.live && s.host.live[ticket.id].serial == serial
      && t.tickets[serial] == ticket.(ended := true, pc := Notifying)
      && t.ended == s.ended +
           [EndRecord(serial, ticket.id, ticket.pc == Running, s.host.live[ticket.id].cancelled, cleanup)]
      && t.host.live == s.host.live - {ticket.id}
      && t.host.running == s.host.running - (if ticket.pc == Running then 1 else 0)
  {
    HostRuns.ReachableIsInvariant(s);
    assert PcFits(s.tickets[serial]);
    assert Holds(s.host.live, serial, s.tickets[serial]);
  }

  /** A drop ends a ticket that has not ended, with no report, and leaves the host of one that has as it is. */
  lemma DropEndsOnce(s: System, serial: nat)
    requires Reachable(s) && TicketEnabled(s, serial, Drop)
    ensures
      var t := Apply(s, TicketStep(serial, Drop));
      var ticket := s.tickets[serial];
      && t.tickets[serial].ended
      && (if ticket.ended then t.host == s.host && t.ended == s.ended
          else
            && t.ended == s.ended +
                 [EndRecord(serial, ticket.id, ticket.pc == Running,
                            CancelMarked(s.host.live, ticket.id, serial), None)]
            && t.host.live == s.host.live - {ticket.id}
            && t.host.running == s.host.running - (if ticket.pc == Running then 1 else 0))
  {
    HostRuns.ReachableIsInvariant(s);
    assert PcFits(s.tickets[serial]);
    if !s.tickets[serial].ended {
      assert Holds(s.host.live, serial, s.tickets[serial]);
    }
  }

  // ----- A cancel's wait -----

  /** A cancel waits while its registration is live and its bound has not passed, and then answers. */
  lemma CancelTurn(s: System, c: nat, timedOut: bool)
    requires CancelEnabled(s, c, Watch(timedOut))
    ensures
      var t := Apply(s, CancelStep(c, Watch(timedOut)));
      var Watching(id, serial) := s.cancels[c];
      var live := id in s.host.live && s.host.live[id].serial == serial;
      && t.host == s.host
      && (t.cancels[c] == Sleeping(id, serial) <==> live && !timedOut)
      && (t.cancels[c] == Replied(TimedOut(serial)) <==> live && timedOut)
      && ((exists cleanup :: t.cancels[c] == Replied(Ended(serial, |s.ended|, cleanup))) <==> !live)
  {
    var t := Apply(s, CancelStep(c, Watch(timedOut)));
    if !IsLive(s.host, s.cancels[c].id, s.cancels[c].serial) {
      var cleanup := ObserveEnd(s.host, s.cancels[c].id, s.cancels[c].serial).value;
      assert t.cancels[c] == Replied(Ended(s.cancels[c].serial, |s.ended|, cleanup));
    }
  }

  ghost predicate AwaitedCalled(s: System) {
    forall c :: c in s.cancels && Awaited(s.cancels[c]).Some? ==> Awaited(s.cancels[c]).value in s.called
  }

  lemma CancelMoveKeepsCalled(s: System, caller: nat, move: CancelMove)
    requires AwaitedCalled(s) && CancelEnabled(s, caller, move)
    ensures AwaitedCalled(AfterCancel(s, caller, move))
  {
    hide HostState.EnterCancel, ObserveEnd, WokenTicket, WokenCloser;
  }

  lemma StepKeepsCalled(s: System, step: Step)
    requires AwaitedCalled(s) && Ledger(s) && Enabled(s, step)
    ensures AwaitedCalled(Apply(s, step))
  {
    if step.CancelStep? {
      CancelMoveKeepsCalled(s, step.caller, step.cancelMove);
    } else {
      hide *;
      StepCallsMore(s, step);
      OthersOnlyWake(s, step);
      WokenKeepsCalled(s, Apply(s, step));
    }
  }

  lemma StepCallsMore(s: System, step: Step)
    requires Ledger(s) && Enabled(s, step)
    ensures s.called <= Apply(s, step).called
  {
    hide *;
    StepAdvances(s, step);
    AdvancesCallsMore(s, Apply(s, step));
  }

  lemma AdvancesCallsMore(s: System, t: System)
    requires Advances(s, t)
    ensures s.called <= t.called
  {
  }

  lemma WokenKeepsCalled(s: System, t: System)
    requires AwaitedCalled(s) && OnlyCancelsWoken(s.cancels, t.cancels) && t.cancels.Keys == s.cancels.Keys
    requires s.called <= t.called
    ensures AwaitedCalled(t)
  {
  }

  lemma {:induction false} CalledInRun(run: seq<System>, i: nat)
    requires Run(run) && i < |run|
    ensures AwaitedCalled(run[i])
  {
    hide Apply, Enabled, Ledger, ClosingFits, CancelsFit, HostCalls.CallsFit, HostWakeups.NoLostWakeup, AwaitedCalled;
    if i == 0 {
      NobodyAwaits();
    } else {
      CalledInRun(run, i - 1);
      HostRuns.RunKeepsInvariant(run, i - 1);
      assert Follows(run, i);
      var step :| Enabled(run[i - 1], step) && run[i] == Apply(run[i - 1], step);
      StepKeepsCalled(run[i - 1], step);
    }
  }

  lemma NobodyAwaits()
    ensures AwaitedCalled(INIT)
  {
  }

  /** A cancel has called its operation's canceller before it waits, and so before it reports what it waited for. */
  lemma CancelCallsBeforeItWaits(run: seq<System>, i: nat, c: nat)
    requires Run(run) && i < |run| && c in run[i].cancels && Awaited(run[i].cancels[c]).Some?
    ensures Awaited(run[i].cancels[c]).value in run[i].called
  {
    CalledInRun(run, i);
  }

  // ----- A close's wait -----

  /** The first close publishes when nothing is live, or its bound has passed, and waits otherwise. */
  lemma FirstCloseTurn(run: seq<System>, i: nat, c: nat, timedOut: bool)
    requires Steps(run, i, CloseStep(c, WatchEmpty(timedOut)))
    ensures run[i].host.closing && run[i].host.report.None?
    ensures
      var s, t := run[i], run[i + 1];
      if s.host.live == map[] || timedOut then
        && t.host == s.host.(report := Some(ReportOf(s.ended, |s.host.live|)))
        && t.closes[c].pc == FirstPublished(ReportOf(s.ended, |s.host.live|))
      else t.host == s.host && t.closes[c].pc == FirstSleeping
  {
    hide CancelsFit, HostCalls.CallsFit, HostWakeups.NoLostWakeup, HistoryFits, Correspond;
    HostRuns.RunKeepsInvariant(run, i);
    assert BeforeReport(run[i].closes[c].pc);
    AggregateReports(run[i].ended, |run[i].host.live|);
  }

  /** A later close comes back with a report, at exit only with nothing live, or when its bound has passed. */
  lemma LaterCloseTurn(run: seq<System>, i: nat, c: nat, timedOut: bool)
    requires Steps(run, i, CloseStep(c, WatchReport(timedOut)))
    ensures run[i].host.closing && run[i + 1].host == run[i].host
    ensures
      var s, t := run[i], run[i + 1];
      if (s.host.report.Some? && (s.closes[c].exit ==> s.host.live == map[])) || timedOut then
        t.closes[c].pc ==
        if s.host.report.Some? then Returning(s.host.report.value, false)
        else Returning(ReportOf(s.ended, |s.host.live|), true)
      else t.closes[c].pc == LaterSleeping
  {
    hide CancelsFit, HostCalls.CallsFit, HostWakeups.NoLostWakeup, HistoryFits, Correspond;
    HostRuns.RunKeepsInvariant(run, i);
    AggregateReports(run[i].ended, |run[i].host.live|);
  }

  lemma NothingLiveForGood(run: seq<System>, i: nat, j: nat)
    requires Run(run) && i <= j < |run| && run[i].host.closing && run[i].host.live == map[]
    ensures run[j].host.live == map[] && run[j].ended == run[i].ended && |run[i].ended| == run[j].host.registered
    ensures forall serial :: serial in run[j].tickets ==> run[j].tickets[serial].ended
  {
    hide ClosingFits, CancelsFit, HostCalls.CallsFit, HostWakeups.NoLostWakeup;
    HostRuns.ClosingOnlyDrains(run, i, j);
    HostRuns.RunIsLater(run, i, j);
    HostRuns.RunKeepsInvariant(run, j);
    HostRuns.RunKeepsInvariant(run, i);
    forall serial | serial in run[j].tickets ensures run[j].tickets[serial].ended {
      assert !run[j].tickets[serial].ended ==> Holds(run[j].host.live, serial, run[j].tickets[serial]);
    }
  }

  /** A close at interpreter exit whose bound did not pass leaves no operation running, then or ever after. */
  lemma ExitCloseLeavesNothing(run: seq<System>, i: nat, j: nat, c: nat)
    requires Steps(run, i, CloseStep(c, WatchReport(false))) && i < j < |run|
    requires run[i].closes[c].exit && run[i + 1].closes[c].pc.Returning?
    ensures run[j].host.live == map[] && run[j].host.exiting
    ensures forall serial :: serial in run[j].tickets ==> run[j].tickets[serial].ended
  {
    hide Apply, Run, Follows, HostRuns.Drained, NeverAdmitted;
    LaterCloseTurn(run, i, c, false);
    NothingLiveForGood(run, i + 1, j);
    FlagsTellTheCloses(run, i);
    HostRuns.RunIsLater(run, i, j);
  }

  /** A first close whose bound did not pass reports every operation there ever was, none of them unfinished. */
  lemma FirstCloseReportsAll(run: seq<System>, i: nat, j: nat, c: nat)
    requires Steps(run, i, CloseStep(c, WatchEmpty(false))) && i < j < |run|
    requires run[i + 1].closes[c].pc.FirstPublished?
    ensures run[j].host.live == map[] && |run[j].ended| == run[j].host.registered
    ensures run[j].host.report == Some(ReportOf(run[j].ended, 0))
  {
    hide Apply, Enabled, ReportOf;
    FirstCloseTurn(run, i, c, false);
    NothingLiveForGood(run, i, j);
    HostRuns.RunIsLater(run, i + 1, j);
  }

  // ----- The flags -----

  ghost predicate Entered(s: System, c: nat) {
    c in s.closes && !s.closes[c].pc.Entering?
  }

  ghost predicate EnteredAtExit(s: System, c: nat) {
    Entered(s, c) && s.closes[c].exit
  }

  ghost predicate FlagsTold(s: System) {
    && (s.host.closing <==> exists c :: Entered(s, c))
    && (s.host.exiting <==> exists c :: EnteredAtExit(s, c))
  }

  lemma OnlyWokenKeepsFlags(s: System, t: System)
    requires FlagsTold(s) && OnlyWoken(s.closes, t.closes)
    requires t.host.closing == s.host.closing && t.host.exiting == s.host.exiting
    ensures FlagsTold(t)
  {
    forall c ensures Entered(s, c) <==> Entered(t, c) ensures EnteredAtExit(s, c) <==> EnteredAtExit(t, c) {
    }
  }

  lemma TicketKeepsFlags(s: System, serial: nat, move: TicketMove)
    requires FlagsTold(s) && TicketEnabled(s, serial, move)
    ensures FlagsTold(AfterTicket(s, serial, move))
  {
    CloseReports.TicketOnlyWakesClosers(s, serial, move);
    TicketLeavesFlags(s, serial, move);
    OnlyWokenKeepsFlags(s, AfterTicket(s, serial, move));
  }

  lemma TicketLeavesFlags(s: System, serial: nat, move: TicketMove)
    requires TicketEnabled(s, serial, move)
    ensures
      var t := AfterTicket(s, serial, move);
      t.host.closing == s.host.closing && t.host.exiting == s.host.exiting
  {
    hide WokenTicket, WokenCancel, WokenCloser;
  }

  lemma CancelKeepsFlags(s: System, caller: nat, move: CancelMove)
    requires FlagsTold(s) && CancelEnabled(s, caller, move)
    ensures FlagsTold(AfterCancel(s, caller, move))
  {
    hide FlagsTold;
    CloseReports.CancelOnlyWakesClosers(s, caller, move);
    CancelLeavesFlags(s, caller, move);
    OnlyWokenKeepsFlags(s, AfterCancel(s, caller, move));
  }

  lemma CancelLeavesFlags(s: System, caller: nat, move: CancelMove)
    requires CancelEnabled(s, caller, move)
    ensures
      var t := AfterCancel(s, caller, move);
      t.host.closing == s.host.closing && t.host.exiting == s.host.exiting
  {
    hide ObserveEnd, WokenTicket, WokenCancel, WokenCloser;
  }

  lemma CloseKeepsFlags(s: System, closer: nat, move: CloseMove)
    requires FlagsTold(s) && CloseEnabled(s, closer, move)
    ensures FlagsTold(AfterClose(s, closer, move))
  {
    hide RunningCancellers, WokenTicket, WokenCancel, FlagsTold;
    var t := AfterClose(s, closer, move);
    CloseSetsFlags(s, closer, move);
    forall c | c != closer
      ensures Entered(s, c) <==> Entered(t, c)
      ensures EnteredAtExit(s, c) <==> EnteredAtExit(t, c) {
    }
    ClosersDecide(s, t, closer);
  }

  /** A closer that enters sets the flags; one that had entered stays so. */
  lemma CloseSetsFlags(s: System, closer: nat, move: CloseMove)
    requires CloseEnabled(s, closer, move)
    ensures
      var t := AfterClose(s, closer, move);
      && closer in t.closes && (Entered(s, closer) ==> Entered(t, closer))
      && (closer in s.closes ==> t.closes[closer].exit == s.closes[closer].exit)
      && t.host.closing == (s.host.closing || (Entered(t, closer) && !Entered(s, closer)))
      && t.host.exiting == (s.host.exiting || (EnteredAtExit(t, closer) && !Entered(s, closer)))
  {
    hide RunningCancellers, MarkAllCancelled, WokenTicket, WokenCancel, LaterReport;
  }

  lemma ClosersDecide(s: System, t: System, closer: nat)
    requires FlagsTold(s) && (Entered(s, closer) ==> Entered(t, closer))
    requires EnteredAtExit(s, closer) ==> EnteredAtExit(t, closer)
    requires Entered(s, closer) ==> (EnteredAtExit(t, closer) ==> EnteredAtExit(s, closer))
    requires forall c :: c != closer ==>
               (Entered(s, c) <==> Entered(t, c)) && (EnteredAtExit(s, c) <==> EnteredAtExit(t, c))
    requires t.host.closing == (s.host.closing || (Entered(t, closer) && !Entered(s, closer)))
    requires t.host.exiting == (s.host.exiting || (EnteredAtExit(t, closer) && !Entered(s, closer)))
    ensures FlagsTold(t)
  {
    hide Entered, EnteredAtExit;
    if s.host.closing {
      var c :| Entered(s, c);
      assert Entered(t, c);
    }
    if s.host.exiting {
      var c :| EnteredAtExit(s, c);
      assert EnteredAtExit(t, c);
    }
  }

  lemma StepKeepsFlags(s: System, step: Step)
    requires FlagsTold(s) && Enabled(s, step)
    ensures FlagsTold(Apply(s, step))
  {
    hide FlagsTold;
    match step
    case TicketStep(serial, move) => TicketKeepsFlags(s, serial, move);
    case CancelStep(caller, move) => CancelKeepsFlags(s, caller, move);
    case CloseStep(closer, move) => CloseKeepsFlags(s, closer, move);
    case _ => OnlyWokenKeepsFlags(s, Apply(s, step));
  }

  /** A host is closing just when some close has entered, and exiting just when one at interpreter exit has. */
  lemma {:induction false} FlagsTellTheCloses(run: seq<System>, i: nat)
    requires Run(run) && i < |run|
    ensures run[i].host.closing <==> exists c :: c in run[i].closes && !run[i].closes[c].pc.Entering?
    ensures run[i].host.exiting <==>
            exists c :: c in run[i].closes && !run[i].closes[c].pc.Entering? && run[i].closes[c].exit
  {
    hide Apply, Enabled;
    FlagsInRun(run, i);
    assert run[i].host.closing ==> exists c :: Entered(run[i], c);
    assert run[i].host.exiting ==> exists c :: EnteredAtExit(run[i], c);
    assert forall c :: c in run[i].closes && !run[i].closes[c].pc.Entering? ==> Entered(run[i], c);
    assert forall c :: Entered(run[i], c) && run[i].closes[c].exit ==> EnteredAtExit(run[i], c);
  }

  lemma {:induction false} FlagsInRun(run: seq<System>, i: nat)
    requires Run(run) && i < |run|
    ensures FlagsTold(run[i])
  {
    hide Apply, Enabled;
    if i > 0 {
      FlagsInRun(run, i - 1);
      assert Follows(run, i);
      var step :| Enabled(run[i - 1], step) && run[i] == Apply(run[i - 1], step);
      StepKeepsFlags(run[i - 1], step);
    }
  }
}
