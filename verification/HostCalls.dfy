/**
  Calling cancellers: only an admitted operation's canceller is ever called, and a
  first close has called every running operation's before it waits.
*/
module HostCalls {
  import opened Wrappers
  import opened HostState
  import opened HostProtocol
  import opened HostLedger
  import opened HostClosing
  import opened HostCancelling

  ghost predicate WasAdmitted(tickets: map<nat, Ticket>, serial: nat) {
    serial in tickets && tickets[serial].admitted
  }

  /** Each running operation with a canceller has had it called, or is among `calls`. */
  ghost predicate Covered(live: map<OperationId, Live>, called: set<nat>, calls: set<(nat, Canceller)>) {
    forall id :: id in live && live[id].running && live[id].canceller.Some? ==>
      live[id].serial in called || (live[id].serial, live[id].canceller.value) in calls
  }

  ghost predicate CallsAdmitted(tickets: map<nat, Ticket>, calls: set<(nat, Canceller)>) {
    forall call :: call in calls ==> WasAdmitted(tickets, call.0)
  }

  ghost predicate CloserCallsFit(s: System, pc: ClosePc) {
    match pc
    case FirstAnnouncing(calls) => CallsAdmitted(s.tickets, calls) && Covered(s.host.live, s.called, calls)
    case FirstInvoking(calls) => CallsAdmitted(s.tickets, calls) && Covered(s.host.live, s.called, calls)
    case FirstWatching => Covered(s.host.live, s.called, {})
    case FirstSleeping => Covered(s.host.live, s.called, {})
    case _ => true
  }

  ghost predicate CallsFit(s: System) {
    && (forall serial :: serial in s.called ==> WasAdmitted(s.tickets, serial))
    && (forall c :: c in s.closes ==> CloserCallsFit(s, s.closes[c].pc))
    && (s.host.report.Some? ==> Covered(s.host.live, s.called, {}))
  }

  // ----- Every step keeps it -----

  /** While a host is closing, live operations only go away, and none starts running. */
  ghost predicate OnlyLeave(live: map<OperationId, Live>, live': map<OperationId, Live>) {
    && live'.Keys <= live.Keys
    && forall id :: id in live' ==> live'[id] == live[id].(cancelled := live'[id].cancelled)
  }

  ghost predicate Drains(s: System, t: System) {
    && (s.host.closing ==> OnlyLeave(s.host.live, t.host.live))
    && s.called <= t.called
    && (forall serial :: serial in s.tickets && s.tickets[serial].admitted ==> WasAdmitted(t.tickets, serial))
  }

  lemma CoveredStays(s: System, t: System, calls: set<(nat, Canceller)>)
    requires Drains(s, t) && s.host.closing && Covered(s.host.live, s.called, calls)
    ensures Covered(t.host.live, t.called, calls)
  {
  }

  lemma CloserCallsStay(s: System, t: System, closer: Closer)
    requires Drains(s, t) && CloserCallsFit(s, closer.pc) && (s.host.closing || closer.pc.Entering?)
    ensures CloserCallsFit(t, closer.pc) && CloserCallsFit(t, WokenCloser(closer).pc)
  {
    match closer.pc
    case FirstAnnouncing(calls) => CoveredStays(s, t, calls);
    case FirstInvoking(calls) => CoveredStays(s, t, calls);
    case FirstWatching => CoveredStays(s, t, {});
    case FirstSleeping => CoveredStays(s, t, {});
    case _ =>
  }

  lemma WokenKeepsCalls(s: System, t: System)
    requires CallsFit(s) && ClosingFits(s) && Drains(s, t) && CallsUnmoved(s, t)
    ensures CallsFit(t)
  {
    forall c | c in t.closes ensures CloserCallsFit(t, t.closes[c].pc) {
      CloserCallsStay(s, t, s.closes[c]);
    }
    if s.host.report.Some? {
      CoveredStays(s, t, {});
    }
  }

  lemma AdvancesDrains(s: System, t: System)
    requires Advances(s, t) && (s.host.closing ==> OnlyLeave(s.host.live, t.host.live))
    ensures Drains(s, t)
  {
    forall serial | serial in s.tickets && s.tickets[serial].admitted ensures WasAdmitted(t.tickets, serial) {
      assert TicketAdvances(s, t, serial);
    }
  }

  /** What a step of a ticket or a cancelling thread leaves to the closing threads. */
  ghost predicate CallsUnmoved(s: System, t: System) {
    t.called == s.called && t.host.report == s.host.report && OnlyWoken(s.closes, t.closes)
  }

  lemma TicketMoveLeaves(s: System, serial: nat, move: TicketMove)
    requires TicketEnabled(s, serial, move)
    ensures s.host.closing ==> OnlyLeave(s.host.live, AfterTicket(s, serial, move).host.live)
    ensures CallsUnmoved(s, AfterTicket(s, serial, move))
  {
    hide WokenTicket, WokenCancel, Recorded, WasCancelled;
  }

  lemma TicketKeepsCalls(s: System, serial: nat, move: TicketMove)
    requires Ledger(s) && ClosingFits(s) && CallsFit(s) && TicketEnabled(s, serial, move)
    ensures CallsFit(AfterTicket(s, serial, move))
  {
    TicketStepAdvances(s, serial, move);
    TicketMoveLeaves(s, serial, move);
    AdvancesDrains(s, AfterTicket(s, serial, move));
    WokenKeepsCalls(s, AfterTicket(s, serial, move));
  }

  lemma RegisterKeepsCalls(s: System, id: OperationId, canceller: Option<Canceller>)
    requires Ledger(s) && ClosingFits(s) && CallsFit(s) && HostState.Register(s.host, id, canceller).Registered?
    ensures CallsFit(AfterRegister(s, id, HostState.Register(s.host, id, canceller).host))
  {
    RegisterAdvances(s, id, canceller);
    AdvancesDrains(s, AfterRegister(s, id, HostState.Register(s.host, id, canceller).host));
    WokenKeepsCalls(s, AfterRegister(s, id, HostState.Register(s.host, id, canceller).host));
  }

  lemma CancelMoveLeaves(s: System, caller: nat, move: CancelMove)
    requires CancelEnabled(s, caller, move)
    ensures OnlyLeave(s.host.live, AfterCancel(s, caller, move).host.live)
    ensures !move.Invoke? ==> CallsUnmoved(s, AfterCancel(s, caller, move))
  {
    if move.Enter? {
      EnterCancelOnlyMarks(s.host, s.cancels[caller].id);
    }
  }

  lemma CancelKeepsCalls(s: System, caller: nat, move: CancelMove)
    requires Ledger(s) && ClosingFits(s) && CancelsFit(s) && CallsFit(s) && CancelEnabled(s, caller, move)
    ensures CallsFit(AfterCancel(s, caller, move))
  {
    var t := AfterCancel(s, caller, move);
    CancelStepAdvances(s, caller, move);
    CancelMoveLeaves(s, caller, move);
    AdvancesDrains(s, t);
    if move.Invoke? {
      assert CancelFits(s, s.cancels[caller]);
      InvokeKeepsCalls(s, caller);
    } else {
      WokenKeepsCalls(s, t);
    }
  }

  lemma MoreCalledFits(s: System, serial: nat)
    requires CallsFit(s) && WasAdmitted(s.tickets, serial)
    ensures CallsFit(s.(called := s.called + {serial}))
  {
    var t := s.(called := s.called + {serial});
    forall c | c in t.closes ensures CloserCallsFit(t, t.closes[c].pc) {
      assert CloserCallsFit(s, s.closes[c].pc);
    }
  }

  lemma InvokeKeepsCalls(s: System, caller: nat)
    requires CallsFit(s) && CancelEnabled(s, caller, Invoke) && CancelFits(s, s.cancels[caller])
    ensures CallsFit(AfterCancel(s, caller, Invoke))
  {
    var called := s.(called := s.called + {s.cancels[caller].serial});
    var t := AfterCancel(s, caller, Invoke);
    MoreCalledFits(s, s.cancels[caller].serial);
    forall c | c in t.closes ensures CloserCallsFit(t, t.closes[c].pc) {
      assert CloserCallsFit(called, called.closes[c].pc);
    }
  }

  lemma MovedCloserCalls(s: System, t: System, closer: nat)
    requires CallsFit(s) && ClosingFits(s) && Drains(s, t) && t.tickets == s.tickets
    requires forall c :: c in t.closes && c != closer ==>
               c in s.closes && (t.closes[c] == s.closes[c] || t.closes[c] == WokenCloser(s.closes[c]))
    requires closer in t.closes && CloserCallsFit(t, t.closes[closer].pc)
    requires forall serial :: serial in t.called ==> WasAdmitted(t.tickets, serial)
    requires t.host.report == s.host.report || Covered(t.host.live, t.called, {})
    ensures CallsFit(t)
  {
    forall c | c in t.closes ensures CloserCallsFit(t, t.closes[c].pc) {
      if c != closer {
        CloserCallsStay(s, t, s.closes[c]);
      }
    }
    if t.host.report == s.host.report && s.host.report.Some? {
      CoveredStays(s, t, {});
    }
  }

  lemma EnterKeepsCalls(s: System, closer: nat)
    requires Ledger(s) && ClosingFits(s) && CallsFit(s) && CloseEnabled(s, closer, EnterClose)
    ensures CallsFit(AfterEnterClose(s, closer))
  {
    var t := AfterEnterClose(s, closer);
    var calls := RunningCancellers(s.host.live);
    forall call | call in calls ensures WasAdmitted(s.tickets, call.0) {
      var id :| id in s.host.live && s.host.live[id].running && s.host.live[id].canceller.Some?
                && call == (s.host.live[id].serial, s.host.live[id].canceller.value);
      assert Owned(s.tickets, id, call.0);
      assert Holds(s.host.live, call.0, s.tickets[call.0]);
    }
    assert Covered(t.host.live, t.called, calls);
    MovedCloserCalls(s, t, closer);
  }

  lemma InvokeOneKeepsCalls(s: System, closer: nat, call: (nat, Canceller))
    requires ClosingFits(s) && CallsFit(s) && CloseEnabled(s, closer, InvokeOne(call))
    ensures CallsFit(AfterInvokeOne(s, closer, call))
  {
    var called := s.(called := s.called + {call.0});
    assert CloserCallsFit(s, s.closes[closer].pc);
    assert WasAdmitted(s.tickets, call.0);
    MoreCalledFits(s, call.0);
    assert CloserCallsFit(called, called.closes[closer].pc);
    MovedCloserCalls(called, AfterInvokeOne(s, closer, call), closer);
  }

  lemma NotifyMoveKeepsCalls(s: System, closer: nat, pc: ClosePc)
    requires CallsFit(s) && ClosingFits(s) && closer in s.closes && CloserCallsFit(s, pc)
    requires pc.FirstInvoking? || pc.Returning?
    ensures CallsFit(NotifyAll(WithCloser(s, closer, pc)))
  {
    var moved := WithCloser(s, closer, pc);
    var t := NotifyAll(moved);
    assert CloserCallsFit(t, pc);
    forall c | c in t.closes ensures CloserCallsFit(t, t.closes[c].pc) {
      if c != closer {
        assert CloserCallsFit(s, s.closes[c].pc);
      }
    }
  }

  lemma WatchEmptyKeepsCalls(s: System, closer: nat, timedOut: bool)
    requires ClosingFits(s) && CallsFit(s) && CloseEnabled(s, closer, WatchEmpty(timedOut))
    ensures CallsFit(AfterWatchEmpty(s, closer, timedOut))
  {
    assert CloserCallsFit(s, s.closes[closer].pc);
    assert Covered(s.host.live, s.called, {});
    MovedCloserCalls(s, AfterWatchEmpty(s, closer, timedOut), closer);
  }

  lemma LaterMoveKeepsCalls(s: System, closer: nat, pc: ClosePc, hooked: bool)
    requires ClosingFits(s) && CallsFit(s) && closer in s.closes && CloserCallsFit(s, pc)
    ensures CallsFit(WithCloser(s.(hooked := hooked), closer, pc))
  {
    var t := WithCloser(s.(hooked := hooked), closer, pc);
    assert CloserCallsFit(t, pc);
    MovedCloserCalls(s, t, closer);
  }

  lemma CloseKeepsCalls(s: System, closer: nat, move: CloseMove)
    requires Ledger(s) && ClosingFits(s) && CallsFit(s) && CloseEnabled(s, closer, move)
    ensures CallsFit(AfterClose(s, closer, move))
  {
    hide Ledger, Covered;
    match move
    case Begin(_) => MovedCloserCalls(s, AfterClose(s, closer, move), closer);
    case EnterClose => EnterKeepsCalls(s, closer);
    case InvokeOne(call) => InvokeOneKeepsCalls(s, closer, call);
    case NotifyClosing =>
      assert CloserCallsFit(s, s.closes[closer].pc);
      NotifyMoveKeepsCalls(s, closer, FirstInvoking(s.closes[closer].pc.calls));
    case NotifyPublished => NotifyMoveKeepsCalls(s, closer, Returning(s.closes[closer].pc.report, false));
    case WatchEmpty(timedOut) => WatchEmptyKeepsCalls(s, closer, timedOut);
    case WatchReport(timedOut) =>
      LaterMoveKeepsCalls(s, closer, AfterWatchReport(s, closer, timedOut).closes[closer].pc, s.hooked);
    case RouseCloser =>
      assert CloserCallsFit(s, s.closes[closer].pc);
      LaterMoveKeepsCalls(s, closer, WokenCloser(s.closes[closer]).pc, s.hooked);
    case CheckIdle =>
      var t := AfterCheckIdle(s, closer);
      LaterMoveKeepsCalls(s, closer, t.closes[closer].pc, t.hooked);
  }

  lemma StepKeepsCalls(s: System, step: Step)
    requires Ledger(s) && ClosingFits(s) && CancelsFit(s) && CallsFit(s) && Enabled(s, step)
    ensures CallsFit(Apply(s, step))
  {
    match step
    case Register(id, canceller) => RegisterKeepsCalls(s, id, canceller);
    case TicketStep(serial, move) => TicketKeepsCalls(s, serial, move);
    case CancelStep(caller, move) => CancelKeepsCalls(s, caller, move);
    case CloseStep(closer, move) => CloseKeepsCalls(s, closer, move);
  }
}
