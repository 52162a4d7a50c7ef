/**
  What every run of a host's threads guarantees. Each theorem is about all
  interleavings of registering, admitting, cancelling, closing, finishing and
  dropping, with every deadline free to pass at any moment.
*/
module HostRuns {
  import opened Wrappers
  import opened HostState
  import opened HostProtocol
  import opened HostLedger
  import opened HostClosing
  import opened HostCancelling
  import opened HostCalls
  import opened HostWakeups

  ghost predicate Invariant(s: System) {
    Ledger(s) && ClosingFits(s) && CancelsFit(s) && CallsFit(s) && NoLostWakeup(s)
  }

  lemma InitIsInvariant()
    ensures Invariant(INIT)
  {
    InitHasLedger();
  }

  lemma StepKeepsInvariant(s: System, step: Step)
    requires Invariant(s) && Enabled(s, step)
    ensures Invariant(Apply(s, step))
  {
    StepKeepsLedger(s, step);
    StepKeepsClosing(s, step);
    StepKeepsCancels(s, step);
    StepKeepsCalls(s, step);
    StepKeepsWakeups(s, step);
  }

  lemma NextKeeps(s: System, t: System)
    requires Invariant(s) && Next(s, t)
    ensures Invariant(t)
  {
    hide Invariant;
    var step :| Enabled(s, step) && t == Apply(s, step);
    StepKeepsInvariant(s, step);
  }

  lemma {:induction false} RunKeepsInvariant(run: seq<System>, i: nat)
    requires Run(run) && i < |run|
    ensures Invariant(run[i])
  {
    hide Invariant, Next;
    if i == 0 {
      InitIsInvariant();
    } else {
      RunKeepsInvariant(run, i - 1);
      assert Follows(run, i);
      NextKeeps(run[i - 1], run[i]);
    }
  }

  lemma ReachableIsInvariant(s: System)
    requires Reachable(s)
    ensures Invariant(s)
  {
    hide Invariant, Follows;
    var run :| Run(run) && run[|run| - 1] == s;
    RunKeepsInvariant(run, |run| - 1);
  }

  lemma RunReaches(run: seq<System>, j: nat)
    requires Run(run) && j < |run|
    ensures Reachable(run[j])
  {
    var shorter := run[..j + 1];
    forall i | 0 < i < |shorter| ensures Follows(shorter, i) {
      assert Follows(run, i);
    }
    assert Run(shorter) && shorter[|shorter| - 1] == run[j];
  }

  // ----- Safety in every reachable state -----

  /** The slot count is exact, never above the limit, and never taken below zero. */
  lemma SlotsAreCounted(s: System)
    requires Reachable(s)
    ensures s.host.running == |Holders(s.tickets)| == |RunningIds(s.host.live)|
    ensures 0 <= s.host.running <= LIMIT
    ensures forall serial :: serial in s.tickets && s.tickets[serial].admitted && !s.tickets[serial].ended ==>
              s.host.running >= 1
  {
    ReachableIsInvariant(s);
    forall serial | serial in s.tickets && s.tickets[serial].admitted && !s.tickets[serial].ended
      ensures s.host.running >= 1
    {
      assert serial in Holders(s.tickets);
    }
  }

  /** Un-ended tickets and live operations are the same operations. */
  lemma TicketsAreLiveOperations(s: System)
    requires Reachable(s)
    ensures forall serial :: serial in s.tickets ==>
              (IsLive(s.host, s.tickets[serial].id, serial) <==> !s.tickets[serial].ended)
    ensures forall id :: id in s.host.live ==>
              && s.host.live[id].serial in s.tickets
              && !s.tickets[s.host.live[id].serial].ended
              && s.tickets[s.host.live[id].serial].id == id
              && s.tickets[s.host.live[id].serial].admitted == s.host.live[id].running
  {
    ReachableIsInvariant(s);
    forall serial | serial in s.tickets
      ensures IsLive(s.host, s.tickets[serial].id, serial) <==> !s.tickets[serial].ended
    {
      if !s.tickets[serial].ended {
        assert Holds(s.host.live, serial, s.tickets[serial]);
      } else {
        assert IsLive(s.host, s.tickets[serial].id, serial) ==> Owned(s.tickets, s.tickets[serial].id, serial);
      }
    }
    forall id | id in s.host.live
      ensures Owned(s.tickets, id, s.host.live[id].serial)
      ensures s.tickets[s.host.live[id].serial].admitted == s.host.live[id].running
    {
      assert Owned(s.tickets, id, s.host.live[id].serial);
      assert Holds(s.host.live, s.host.live[id].serial, s.tickets[s.host.live[id].serial]);
    }
  }

  /** A ticket ends once, and each end is in the history once. */
  lemma EachTicketEndsOnce(s: System, serial: nat)
    requires Reachable(s) && serial in s.tickets
    ensures s.tickets[serial].ended <==> exists k :: 0 <= k < |s.ended| && s.ended[k].serial == serial
    ensures forall j, k ::
              0 <= j < |s.ended| && 0 <= k < |s.ended| && s.ended[j].serial == serial == s.ended[k].serial ==> j == k
  {
    ReachableIsInvariant(s);
  }

  /** The record of completed cancellations is the last 64 of the run's. */
  lemma RecordHoldsTheLast(s: System)
    requires Reachable(s)
    ensures s.host.cancellations == Last(Reported(s.ended), RECORDED_CANCELLATIONS)
    ensures |s.host.cancellations| <= RECORDED_CANCELLATIONS
  {
    ReachableIsInvariant(s);
  }

  // ----- No lost wake-up -----

  /** When no notification is on its way, whoever sleeps really has to wait. */
  lemma NobodySleepsInVain(s: System)
    requires Reachable(s) && !NotificationOwed(s)
    ensures forall serial :: serial in s.tickets && s.tickets[serial].pc == Asleep ==>
              && s.host.running == LIMIT && !s.host.closing
              && !CancelMarked(s.host.live, s.tickets[serial].id, serial)
    ensures forall c :: c in s.cancels && s.cancels[c].Sleeping? ==>
              IsLive(s.host, s.cancels[c].id, s.cancels[c].serial)
    ensures forall c :: c in s.closes && s.closes[c].pc.FirstSleeping? ==> s.host.live != map[]
    ensures forall c :: c in s.closes && s.closes[c].pc.LaterSleeping? ==>
              s.host.report.None? || (s.closes[c].exit && s.host.live != map[])
  {
    ReachableIsInvariant(s);
    forall serial | serial in s.tickets && s.tickets[serial].pc == Asleep
      ensures s.host.running == LIMIT && !s.host.closing
      ensures !CancelMarked(s.host.live, s.tickets[serial].id, serial)
    {
      assert !TicketSleepsReady(s.host, serial, s.tickets[serial]);
    }
    forall c | c in s.cancels && s.cancels[c].Sleeping?
      ensures IsLive(s.host, s.cancels[c].id, s.cancels[c].serial)
    {
      assert !CancelSleepsReady(s.host, s.cancels[c]);
    }
    forall c | c in s.closes
      ensures s.closes[c].pc.FirstSleeping? ==> s.host.live != map[]
      ensures s.closes[c].pc.LaterSleeping? ==> s.host.report.None? || (s.closes[c].exit && s.host.live != map[])
    {
      assert !CloserReady(s.host, s.closes[c]);
    }
  }

  /** A step that notifies: after an end, a cancel, the start of a close or the publication of its report. */
  predicate IsNotify(step: Step) {
    match step
    case TicketStep(_, move) => move.NotifyEnded?
    case CancelStep(_, move) => move.NotifyCancelled?
    case CloseStep(_, move) => move.NotifyClosing? || move.NotifyPublished?
    case _ => false
  }

  lemma NotifierWakesAll(s: System, step: Step)
    requires Enabled(s, step) && IsNotify(step)
    ensures !SleepsReady(Apply(s, step))
  {
    match step
    case TicketStep(serial, _) =>
      NotifiedNobodySleeps(WithTicket(s, serial, s.tickets[serial].(pc := Finished)));
    case CancelStep(c, _) => NotifiedNobodySleeps(WithCancel(s, c, Replied(CancelledWaiting(s.cancels[c].serial))));
    case CloseStep(c, move) =>
      NotifiedNobodySleeps(WithCloser(s, c, if move.NotifyClosing? then FirstInvoking(s.closes[c].pc.calls)
                                            else Returning(s.closes[c].pc.report, false)));
    case _ =>
  }

  lemma NotifierOf(s: System) returns (step: Step)
    requires NotificationOwed(s)
    ensures Enabled(s, step) && IsNotify(step) && !SleepsReady(Apply(s, step))
  {
    if t :| t in s.tickets && s.tickets[t].pc == Notifying {
      step := TicketStep(t, NotifyEnded);
    } else if c :| c in s.cancels && s.cancels[c].Announcing? {
      step := CancelStep(c, HostProtocol.NotifyCancelled);
    } else {
      var c :| c in s.closes && (s.closes[c].pc.FirstAnnouncing? || s.closes[c].pc.FirstPublished?);
      step := CloseStep(c, if s.closes[c].pc.FirstAnnouncing? then NotifyClosing else NotifyPublished);
    }
    NotifierWakesAll(s, step);
  }

  /** A sleeper whose wait is over has a step under way after which nobody sleeps at all. */
  lemma WakingIsOneStepAway(s: System)
    requires Reachable(s) && SleepsReady(s)
    ensures exists step :: Enabled(s, step) && IsNotify(step) && !SleepsReady(Apply(s, step))
  {
    ReachableIsInvariant(s);
    var step := NotifierOf(s);
  }

  // ----- Cancelling -----

  /**
    A cancel that saw its registration end answers with that registration's own
    report, exactly unless it left none or 64 later ones displaced it; one that
    stopped waiting answers for an unfinished operation.
  */
  lemma CancelAnswersForItsOwnRegistration(s: System, c: nat)
    requires Reachable(s) && c in s.cancels && s.cancels[c].Replied? && s.cancels[c].reply.Ended?
    ensures
      var Ended(serial, at, cleanup) := s.cancels[c].reply;
      && at <= |s.ended|
      && exists k :: 0 <= k < at && s.ended[k].serial == serial && s.ended[k].cancelled && s.ended[k].admitted
           && cleanup == if s.ended[k].cleanup.Some? && |Reported(s.ended[k + 1..at])| < RECORDED_CANCELLATIONS
                         then s.ended[k].cleanup.value else UNFINISHED
  {
    ReachableIsInvariant(s);
    assert CancelFits(s, s.cancels[c]);
    var Ended(serial, at, cleanup) := s.cancels[c].reply;
    var k :| 0 <= k < at && s.ended[..at][k].serial == serial;
    assert s.ended[..at][k + 1..] == s.ended[k + 1..at];
  }

  /** A cancel refused changes nothing but the caller's own place, and it is refused just when these hold. */
  lemma RefusedCancelChangesNothing(s: System, caller: nat)
    requires caller in s.cancels && s.cancels[caller].Calling?
    ensures
      var id := s.cancels[caller].id;
      var refused := id !in s.host.live || (s.host.live[id].running && s.host.live[id].canceller.None?);
      var t := Apply(s, CancelStep(caller, Enter));
      && (refused ==> t == s.(cancels := t.cancels) && t.cancels[caller].Replied?)
      && (!refused ==> t.host.live[id].cancelled && t.host == s.host.(live := t.host.live)
                       && t.host.live == s.host.live[id := s.host.live[id].(cancelled := true)])
  {
  }

  /** No canceller of an operation that was never admitted is called; a close reaches every running one. */
  lemma CallsReachAdmittedOperations(s: System)
    requires Reachable(s)
    ensures forall serial :: serial in s.called ==> WasAdmitted(s.tickets, serial)
    ensures (|| s.host.report.Some?
             || exists c :: c in s.closes && (s.closes[c].pc.FirstWatching? || s.closes[c].pc.FirstSleeping?)) ==>
              forall id :: id in s.host.live && s.host.live[id].running && s.host.live[id].canceller.Some? ==>
                s.host.live[id].serial in s.called
  {
    ReachableIsInvariant(s);
    if c :| c in s.closes && (s.closes[c].pc.FirstWatching? || s.closes[c].pc.FirstSleeping?) {
      assert CloserCallsFit(s, s.closes[c].pc);
    }
  }

  // ----- Closing -----

  /** The first close's report counts every report and every unfinished registration, and nothing else. */
  lemma ReportIsConserved(s: System)
    requires Reachable(s) && s.host.report.Some?
    ensures
      var n := s.publishedAt;
      var report := s.host.report.value;
      && n <= |s.ended| && n <= s.host.registered
      && report.pendingLocalWork == Pending(s.ended[..n]) + (s.host.registered - n)
      && (report.peerCleanupConfirmed <==>
            && s.host.registered == n
            && (exists k :: 0 <= k < n && Confirmed(s.ended[k]))
            && (forall k :: 0 <= k < n && s.ended[k].cleanup.Some? ==> Confirmed(s.ended[k])))
  {
    hide Ledger, CancelsFit, CallsFit, NoLostWakeup, FlagsFit, ClosersFit;
    ReachableIsInvariant(s);
    var done := s.ended[..s.publishedAt];
    assert forall k :: 0 <= k < |done| ==> done[k] == s.ended[k];
    assert AnyConfirmed(done) <==> exists k :: 0 <= k < s.publishedAt && Confirmed(s.ended[k]);
  }

  /** Every close returns the one report, unless its own bound passed before there was one. */
  lemma ClosesAgree(s: System, c: nat)
    requires Reachable(s) && c in s.closes && s.closes[c].pc.Closed? && !s.closes[c].pc.interim
    ensures s.host.report == Some(s.closes[c].pc.report)
  {
    ReachableIsInvariant(s);
    assert ReplyFits(s.host.report, s.closes[c].pc);
  }

  // ----- Whole runs -----

  /** What one step, and so every later state, keeps of an earlier one. */
  ghost predicate Later(s: System, t: System) {
    && s.ended <= t.ended
    && (s.host.exiting ==> t.host.exiting)
    && (!s.hooked ==> !t.hooked)
    && (s.host.report.Some? ==> t.host.report == s.host.report)
    && (forall serial :: NeverAdmitted(s, serial) ==> NeverAdmitted(t, serial))
    && (forall c :: c in s.cancels && s.cancels[c].Replied? ==> c in t.cancels && t.cancels[c] == s.cancels[c])
    && (s.host.closing ==> Drained(s, t))
  }

  ghost predicate Drained(s: System, t: System) {
    && t.host.closing && t.host.registered == s.host.registered
    && t.tickets.Keys == s.tickets.Keys
    && t.host.live.Keys <= s.host.live.Keys
    && (forall serial :: serial in s.tickets && t.tickets[serial].admitted ==> s.tickets[serial].admitted)
  }

  lemma StepIsLater(s: System, step: Step)
    requires Invariant(s) && Enabled(s, step)
    ensures Later(s, Apply(s, step))
  {
    var t := Apply(s, step);
    StepAdvances(s, step);
    forall serial | NeverAdmitted(s, serial) ensures NeverAdmitted(t, serial) {
      assert TicketAdvances(s, t, serial);
    }
    StepKeepsReplies(s, step);
    StepKeepsReport(s, step);
    if s.host.closing {
      StepDrains(s, step);
    }
  }

  lemma StepKeepsReplies(s: System, step: Step)
    requires Enabled(s, step)
    ensures
      var t := Apply(s, step);
      forall c :: c in s.cancels && s.cancels[c].Replied? ==> c in t.cancels && t.cancels[c] == s.cancels[c]
  {
    match step
    case CancelStep(caller, move) => CancelMoveKeepsReplies(s, caller, move);
    case _ => OthersKeepReplies(s, step);
  }

  lemma OthersKeepReplies(s: System, step: Step)
    requires Enabled(s, step) && !step.CancelStep?
    ensures
      var t := Apply(s, step);
      forall c :: c in s.cancels && s.cancels[c].Replied? ==> c in t.cancels && t.cancels[c] == s.cancels[c]
  {
    hide Apply, Enabled;
    OthersOnlyWake(s, step);
  }

  lemma CancelMoveKeepsReplies(s: System, caller: nat, move: CancelMove)
    requires CancelEnabled(s, caller, move)
    ensures
      var t := AfterCancel(s, caller, move);
      forall c :: c in s.cancels && s.cancels[c].Replied? ==> c in t.cancels && t.cancels[c] == s.cancels[c]
  {
    hide HostState.EnterCancel, ObserveEnd;
  }

  ghost predicate KeepsFlags(s: System, t: System) {
    && (s.host.report.Some? ==> t.host.report == s.host.report)
    && (s.host.exiting ==> t.host.exiting) && (!s.hooked ==> !t.hooked)
  }

  lemma CloseMoveKeepsReport(s: System, closer: nat, move: CloseMove)
    requires ClosingFits(s) && CloseEnabled(s, closer, move)
    ensures KeepsFlags(s, AfterClose(s, closer, move))
  {
    if move.WatchEmpty? {
      assert BeforeReport(s.closes[closer].pc);
    }
  }

  lemma StepKeepsReport(s: System, step: Step)
    requires ClosingFits(s) && Enabled(s, step)
    ensures KeepsFlags(s, Apply(s, step))
  {
    match step
    case TicketStep(serial, move) => TicketMoveLeavesFlags(s, serial, move);
    case CancelStep(caller, move) => CancelMoveLeavesFlags(s, caller, move);
    case CloseStep(closer, move) => CloseMoveKeepsReport(s, closer, move);
    case _ =>
  }

  lemma TicketMoveLeavesFlags(s: System, serial: nat, move: TicketMove)
    requires TicketEnabled(s, serial, move)
    ensures KeepsFlags(s, AfterTicket(s, serial, move))
  {
  }

  lemma CancelMoveLeavesFlags(s: System, caller: nat, move: CancelMove)
    requires CancelEnabled(s, caller, move)
    ensures KeepsFlags(s, AfterCancel(s, caller, move))
  {
  }

  lemma TicketMoveDrains(s: System, serial: nat, move: TicketMove)
    requires TicketEnabled(s, serial, move) && s.host.closing
    ensures Drained(s, AfterTicket(s, serial, move))
  {
  }

  lemma CancelMoveDrains(s: System, caller: nat, move: CancelMove)
    requires CancelEnabled(s, caller, move) && s.host.closing
    ensures Drained(s, AfterCancel(s, caller, move))
  {
  }

  lemma CloseMoveDrains(s: System, closer: nat, move: CloseMove)
    requires CloseEnabled(s, closer, move) && s.host.closing
    ensures Drained(s, AfterClose(s, closer, move))
  {
  }

  lemma StepDrains(s: System, step: Step)
    requires Enabled(s, step) && s.host.closing
    ensures Drained(s, Apply(s, step))
  {
    match step
    case TicketStep(serial, move) => TicketMoveDrains(s, serial, move);
    case CancelStep(caller, move) => CancelMoveDrains(s, caller, move);
    case CloseStep(closer, move) => CloseMoveDrains(s, closer, move);
    case _ =>
  }

  lemma NextIsLater(s: System, t: System)
    requires Invariant(s) && Next(s, t)
    ensures Later(s, t)
  {
    hide Invariant, Later;
    var step :| Enabled(s, step) && t == Apply(s, step);
    StepIsLater(s, step);
  }

  lemma LaterIsTransitive(s: System, t: System, u: System)
    requires Later(s, t) && Later(t, u)
    ensures Later(s, u)
  {
  }

  lemma LaterIsReflexive(s: System)
    ensures Later(s, s)
  {
  }

  lemma RunStepIsLater(run: seq<System>, j: nat)
    requires Run(run) && 0 < j < |run|
    ensures Later(run[j - 1], run[j])
  {
    hide Invariant, Later, Next;
    RunKeepsInvariant(run, j - 1);
    assert Follows(run, j);
    NextIsLater(run[j - 1], run[j]);
  }

  lemma {:induction false} RunIsLater(run: seq<System>, i: nat, j: nat)
    requires Run(run) && i <= j < |run|
    ensures Later(run[i], run[j])
    decreases j - i
  {
    hide Later, Run;
    var s, u := run[i], run[j];
    if i == j {
      LaterIsReflexive(s);
    } else {
      var t := run[j - 1];
      RunIsLater(run, i, j - 1);
      RunStepIsLater(run, j);
      LaterIsTransitive(s, t, u);
    }
  }

  /** Cancelling and admission are linearizable: a cancel that found its operation waiting has won for good. */
  lemma CancelledWaitingIsNeverAdmitted(run: seq<System>, i: nat, j: nat, c: nat, serial: nat)
    requires Run(run) && i <= j < |run| && c in run[i].cancels
    requires run[i].cancels[c] == Announcing(serial) || run[i].cancels[c] == Replied(CancelledWaiting(serial))
    ensures serial in run[j].tickets && !run[j].tickets[serial].admitted
    ensures forall k :: 0 <= k < |run[j].ended| && run[j].ended[k].serial == serial ==> !run[j].ended[k].admitted
  {
    RunKeepsInvariant(run, i);
    RunKeepsInvariant(run, j);
    assert CancelFits(run[i], run[i].cancels[c]);
    RunIsLater(run, i, j);
    assert NeverAdmitted(run[j], serial);
  }

  /** Once published, the first close's report is every later close's. */
  lemma ReportNeverChanges(run: seq<System>, i: nat, j: nat)
    requires Run(run) && i <= j < |run| && run[i].host.report.Some?
    ensures run[j].host.report == run[i].host.report
    ensures forall c :: c in run[j].closes && run[j].closes[c].pc.Closed? && !run[j].closes[c].pc.interim ==>
              run[i].host.report == Some(run[j].closes[c].pc.report)
  {
    RunIsLater(run, i, j);
    RunKeepsInvariant(run, j);
    forall c | c in run[j].closes ensures ReplyFits(run[j].host.report, run[j].closes[c].pc) {
    }
  }

  /**
    Once a close has begun nothing registers and nothing is admitted; the live
    operations only fall, by one with each end.
  */
  lemma ClosingOnlyDrains(run: seq<System>, i: nat, j: nat)
    requires Run(run) && i <= j < |run| && run[i].host.closing
    ensures run[j].host.closing && run[j].host.registered == run[i].host.registered
    ensures run[j].host.live.Keys <= run[i].host.live.Keys
    ensures |run[j].host.live| == |run[i].host.live| - (|run[j].ended| - |run[i].ended|)
    ensures |run[j].host.live| <= |run[i].host.live|
    ensures Holders(run[j].tickets) <= Holders(run[i].tickets)
  {
    RunIsLater(run, i, j);
    RunKeepsInvariant(run, i);
    RunKeepsInvariant(run, j);
    forall serial | serial in Holders(run[j].tickets) ensures serial in Holders(run[i].tickets) {
    }
  }

  /** The exit hook goes only when there is nothing left for it to wait for, ever again. */
  lemma UnhookedStaysIdle(run: seq<System>, i: nat, j: nat)
    requires Run(run) && i <= j < |run| && !run[i].hooked
    ensures run[j].host.closing && run[j].host.live == map[] && !run[j].hooked
  {
    RunIsLater(run, i, j);
    RunKeepsInvariant(run, j);
  }

  /** Exiting is closing, and neither is ever undone. */
  lemma ExitingIsClosing(run: seq<System>, i: nat, j: nat)
    requires Run(run) && i <= j < |run| && run[i].host.exiting
    ensures run[j].host.exiting && run[j].host.closing
  {
    RunIsLater(run, i, j);
    RunKeepsInvariant(run, j);
  }

  // ----- The exit hook -----

  /** A close that Python called comes back and finds nothing live. */
  ghost predicate ComesBackIdle(s: System, t: System, c: nat) {
    && c in s.closes && s.closes[c].pc.Returning? && !s.closes[c].exit && s.host.live == map[]
    && t == AfterClose(s, c, CheckIdle)
  }

  ghost predicate SomeCloseIsIdle(s: System, t: System) {
    exists c :: ComesBackIdle(s, t, c)
  }

  ghost predicate IdleCloseAt(run: seq<System>, i: nat)
    requires i + 1 < |run|
  {
    SomeCloseIsIdle(run[i], run[i + 1])
  }

  lemma OnlyAnIdleCloseUnhooks(s: System, step: Step)
    requires Enabled(s, step) && s.hooked
    ensures !Apply(s, step).hooked <==> step.CloseStep? && ComesBackIdle(s, Apply(s, step), step.closer)
  {
    match step
    case CloseStep(closer, move) => CloserUnhooks(s, closer, move);
    case TicketStep(serial, move) => TicketMoveKeepsHook(s, serial, move);
    case CancelStep(caller, move) => CancelMoveKeepsHook(s, caller, move);
    case _ =>
  }

  lemma TicketMoveKeepsHook(s: System, serial: nat, move: TicketMove)
    requires TicketEnabled(s, serial, move)
    ensures AfterTicket(s, serial, move).hooked == s.hooked
  {
    hide WokenTicket, WokenCancel, WokenCloser, TryAdmit, End;
  }

  lemma CancelMoveKeepsHook(s: System, caller: nat, move: CancelMove)
    requires CancelEnabled(s, caller, move)
    ensures AfterCancel(s, caller, move).hooked == s.hooked
  {
    hide WokenTicket, WokenCancel, WokenCloser, HostState.EnterCancel, ObserveEnd;
  }

  lemma CloserUnhooks(s: System, closer: nat, move: CloseMove)
    requires CloseEnabled(s, closer, move) && s.hooked
    ensures !AfterClose(s, closer, move).hooked <==> ComesBackIdle(s, AfterClose(s, closer, move), closer)
  {
    hide WokenTicket, WokenCancel, WokenCloser, RunningCancellers;
    if move.CheckIdle? {
    } else {
      CloserMoveKeepsHook(s, closer, move);
    }
  }

  lemma CloserMoveKeepsHook(s: System, closer: nat, move: CloseMove)
    requires CloseEnabled(s, closer, move) && !move.CheckIdle? && s.hooked
    ensures AfterClose(s, closer, move).hooked
    ensures !ComesBackIdle(s, AfterClose(s, closer, move), closer)
  {
    hide WokenTicket, WokenCancel, WokenCloser, RunningCancellers, BeginClose, Publish;
  }

  /**
    The exit hook is gone exactly when some close that Python called has come back to find
    nothing live, and the host is then closing with nothing live for good.
  */
  lemma {:induction false} HookGoesWithAnIdleClose(run: seq<System>, j: nat)
    requires Run(run) && j < |run|
    ensures !run[j].hooked <==> exists i: nat :: i < j && IdleCloseAt(run, i)
    ensures !run[j].hooked ==> forall k: nat :: j <= k < |run| ==> run[k].host.closing && run[k].host.live == map[]
  {
    hide Invariant, Later, Enabled, Apply, ComesBackIdle, AfterClose, IdleCloseAt;
    if j > 0 {
      HookGoesWithAnIdleClose(run, j - 1);
      assert Follows(run, j);
      if run[j - 1].hooked {
        HookAcrossAStep(run, j - 1);
      }
      RunStepIsLater(run, j);
      LaterKeepsUnhooked(run[j - 1], run[j]);
    }
    forall k: nat | j <= k < |run| && !run[j].hooked ensures run[k].host.closing && run[k].host.live == map[] {
      UnhookedStaysIdle(run, j, k);
    }
  }

  lemma LaterKeepsUnhooked(s: System, t: System)
    requires Later(s, t)
    ensures !s.hooked ==> !t.hooked
  {
  }

  lemma HookAcrossAStep(run: seq<System>, i: nat)
    requires i + 1 < |run| && Follows(run, i + 1) && run[i].hooked
    ensures !run[i + 1].hooked <==> IdleCloseAt(run, i)
  {
    hide Enabled, Apply, CloseEnabled;
    var s, t := run[i], run[i + 1];
    var step :| Enabled(s, step) && t == Apply(s, step);
    OnlyAnIdleCloseUnhooks(s, step);
    if c :| ComesBackIdle(s, t, c) {
      IdleReturnUnhooks(s, t, c);
    }
  }

  lemma IdleReturnUnhooks(s: System, t: System, c: nat)
    requires ComesBackIdle(s, t, c)
    ensures !t.hooked
  {
  }
}
