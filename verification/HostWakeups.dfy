/**
  No lost wake-up: a thread asleep on the host's condition variable although what
  it waits for already holds has a notification on its way.
*/
module HostWakeups {
  import opened Wrappers
  import opened HostState
  import opened HostProtocol
  import opened HostLedger

  // ----- What each sleeper waits for -----

  predicate TicketReady(host: Host, id: OperationId, serial: nat) {
    !TryAdmit(host, id, serial).MustWait?
  }

  predicate CancelReady(host: Host, id: OperationId, serial: nat) {
    ObserveEnd(host, id, serial).Some?
  }

  predicate CloserReady(host: Host, closer: Closer) {
    match closer.pc
    case FirstSleeping => host.live == map[]
    case LaterSleeping => LaterCloseDone(host, closer.exit)
    case _ => false
  }

  predicate TicketSleepsReady(host: Host, serial: nat, ticket: Ticket) {
    ticket.pc == Asleep && TicketReady(host, ticket.id, serial)
  }

  predicate CancelSleepsReady(host: Host, pc: CancelPc) {
    pc.Sleeping? && CancelReady(host, pc.id, pc.serial)
  }

  /** Some thread sleeps although it need not. */
  ghost predicate SleepsReady(s: System) {
    || (exists t :: t in s.tickets && TicketSleepsReady(s.host, t, s.tickets[t]))
    || (exists c :: c in s.cancels && CancelSleepsReady(s.host, s.cancels[c]))
    || (exists c :: c in s.closes && CloserReady(s.host, s.closes[c]))
  }

  /** A thread has left its critical section and is about to notify. */
  ghost predicate NotificationOwed(s: System) {
    || (exists t :: t in s.tickets && s.tickets[t].pc == Notifying)
    || (exists c :: c in s.cancels && s.cancels[c].Announcing?)
    || (exists c :: c in s.closes && (s.closes[c].pc.FirstAnnouncing? || s.closes[c].pc.FirstPublished?))
  }

  ghost predicate NoLostWakeup(s: System) {
    SleepsReady(s) ==> NotificationOwed(s)
  }

  // ----- The two ways a step keeps it -----

  lemma NotifiedNobodySleeps(s: System)
    ensures !SleepsReady(NotifyAll(s))
  {
  }

  /** Every sleeper of `t` that is ready was a ready sleeper of `s`, and no debt was dropped. */
  ghost predicate NothingReadied(s: System, t: System) {
    && (forall k :: k in t.tickets && TicketSleepsReady(t.host, k, t.tickets[k]) ==>
          k in s.tickets && TicketSleepsReady(s.host, k, s.tickets[k]))
    && (forall c :: c in t.cancels && CancelSleepsReady(t.host, t.cancels[c]) ==>
          c in s.cancels && CancelSleepsReady(s.host, s.cancels[c]))
    && (forall c :: c in t.closes && CloserReady(t.host, t.closes[c]) ==>
          c in s.closes && CloserReady(s.host, s.closes[c]))
  }

  ghost predicate DebtsKept(s: System, t: System) {
    && (forall k :: k in s.tickets && s.tickets[k].pc == Notifying ==> k in t.tickets && t.tickets[k].pc == Notifying)
    && (forall c :: c in s.cancels && s.cancels[c].Announcing? ==> c in t.cancels && t.cancels[c].Announcing?)
    && (forall c :: c in s.closes && (s.closes[c].pc.FirstAnnouncing? || s.closes[c].pc.FirstPublished?) ==>
          c in t.closes && t.closes[c] == s.closes[c])
  }

  lemma NothingReadiedKeeps(s: System, t: System)
    requires NoLostWakeup(s) && NothingReadied(s, t) && DebtsKept(s, t)
    ensures NoLostWakeup(t)
  {
  }

  // ----- Every step keeps it -----

  lemma RegisterKeepsWaiting(host: Host, id: OperationId, canceller: Option<Canceller>, other: OperationId, serial: nat)
    requires HostState.Register(host, id, canceller).Registered?
    ensures
      var host' := HostState.Register(host, id, canceller).host;
      && (TicketReady(host', other, serial) ==> TicketReady(host, other, serial))
      && (CancelReady(host', other, serial) ==> CancelReady(host, other, serial))
  {
  }

  lemma RegisterReadiesNothing(s: System, id: OperationId, canceller: Option<Canceller>)
    requires HostState.Register(s.host, id, canceller).Registered?
    ensures
      var t := AfterRegister(s, id, HostState.Register(s.host, id, canceller).host);
      NothingReadied(s, t)
  {
    var t := AfterRegister(s, id, HostState.Register(s.host, id, canceller).host);
    forall k | k in t.tickets && TicketSleepsReady(t.host, k, t.tickets[k])
      ensures k in s.tickets && TicketSleepsReady(s.host, k, s.tickets[k])
    {
      RegisterKeepsWaiting(s.host, id, canceller, t.tickets[k].id, k);
    }
    forall c | c in t.cancels && CancelSleepsReady(t.host, t.cancels[c])
      ensures CancelSleepsReady(s.host, s.cancels[c])
    {
      RegisterKeepsWaiting(s.host, id, canceller, t.cancels[c].id, t.cancels[c].serial);
    }
    assert id in t.host.live;
  }

  lemma RegisterKeepsWakeups(s: System, id: OperationId, canceller: Option<Canceller>)
    requires Issued(s.host.registered, s.tickets) && NoLostWakeup(s)
    requires HostState.Register(s.host, id, canceller).Registered?
    ensures NoLostWakeup(AfterRegister(s, id, HostState.Register(s.host, id, canceller).host))
  {
    var t := AfterRegister(s, id, HostState.Register(s.host, id, canceller).host);
    assert t.host.registered !in s.tickets;
    RegisterReadiesNothing(s, id, canceller);
    NothingReadiedKeeps(s, t);
  }

  lemma AdmitReadiesNothing(s: System, serial: nat)
    requires TicketAt(s, serial, {Fresh, Checking})
    ensures
      var t := AfterAdmit(s, serial);
      NothingReadied(s, t) && DebtsKept(s, t)
  {
  }

  lemma TicketKeepsWakeups(s: System, serial: nat, move: TicketMove)
    requires NoLostWakeup(s) && TicketEnabled(s, serial, move)
    ensures NoLostWakeup(AfterTicket(s, serial, move))
  {
    var t := AfterTicket(s, serial, move);
    match move
    case Admit =>
      AdmitReadiesNothing(s, serial);
      NothingReadiedKeeps(s, t);
    case NotifyEnded => NotifiedNobodySleeps(WithTicket(s, serial, s.tickets[serial].(pc := Finished)));
    case Wake => NothingReadiedKeeps(s, t);
    case _ =>
      if t.tickets[serial].pc != Notifying {
        NothingReadiedKeeps(s, t);
      }
  }

  lemma MarkingRunningKeepsWaiting(host: Host, id: OperationId, other: OperationId, serial: nat)
    requires id in host.live && host.live[id].running
    requires other in host.live && host.live[other].serial == serial && !host.live[other].running
    ensures TicketReady(MarkCancelled(host, id), other, serial) ==> TicketReady(host, other, serial)
  {
  }

  /** Marking a running operation readies no sleeper: its own ticket does not sleep. */
  lemma MarkingRunningReadiesNothing(s: System, caller: nat)
    requires PcsFit(s.tickets) && Correspond(s.host.live, s.tickets) && CancelEnabled(s, caller, Enter)
    requires HostState.EnterCancel(s.host, s.cancels[caller].id).WasRunning?
    ensures NothingReadied(s, AfterEnterCancel(s, caller))
  {
    var t := AfterEnterCancel(s, caller);
    forall k | k in t.tickets && TicketSleepsReady(t.host, k, t.tickets[k])
      ensures TicketSleepsReady(s.host, k, s.tickets[k])
    {
      assert PcFits(s.tickets[k]) && Holds(s.host.live, k, s.tickets[k]);
      MarkingRunningKeepsWaiting(s.host, s.cancels[caller].id, s.tickets[k].id, k);
    }
  }

  lemma EnterCancelKeepsWakeups(s: System, caller: nat)
    requires PcsFit(s.tickets) && Correspond(s.host.live, s.tickets) && NoLostWakeup(s)
    requires CancelEnabled(s, caller, Enter)
    ensures NoLostWakeup(AfterEnterCancel(s, caller))
  {
    var t := AfterEnterCancel(s, caller);
    match HostState.EnterCancel(s.host, s.cancels[caller].id)
    case WasWaiting(_, _) => assert t.cancels[caller].Announcing?;
    case WasRunning(_, _, _) =>
      MarkingRunningReadiesNothing(s, caller);
      NothingReadiedKeeps(s, t);
    case _ => NothingReadiedKeeps(s, t);
  }

  lemma WatchReadiesNothing(s: System, caller: nat, move: CancelMove)
    requires CancelEnabled(s, caller, move) && (move.Call? || move.Invoke? || move.Watch? || move.Rouse?)
    ensures
      var t := AfterCancel(s, caller, move);
      NothingReadied(s, t) && DebtsKept(s, t)
  {
  }

  lemma CancelKeepsWakeups(s: System, caller: nat, move: CancelMove)
    requires Ledger(s) && NoLostWakeup(s) && CancelEnabled(s, caller, move)
    ensures NoLostWakeup(AfterCancel(s, caller, move))
  {
    var t := AfterCancel(s, caller, move);
    if move.NotifyCancelled? {
      NotifiedNobodySleeps(WithCancel(s, caller, Replied(CancelledWaiting(s.cancels[caller].serial))));
    } else if move.Enter? {
      EnterCancelKeepsWakeups(s, caller);
    } else {
      WatchReadiesNothing(s, caller, move);
      NothingReadiedKeeps(s, t);
    }
  }

  lemma MovedCloserReadiesNothing(s: System, t: System, closer: nat)
    requires t.host == s.host && t.tickets == s.tickets && t.cancels == s.cancels && closer in t.closes
    requires t.closes == s.closes[closer := t.closes[closer]] && !CloserReady(s.host, t.closes[closer])
    requires closer in s.closes ==> !s.closes[closer].pc.FirstAnnouncing? && !s.closes[closer].pc.FirstPublished?
    ensures NothingReadied(s, t) && DebtsKept(s, t)
  {
  }

  lemma CloserMoveReadiesNothing(s: System, closer: nat, move: CloseMove)
    requires CloseEnabled(s, closer, move)
    requires move.Begin? || move.InvokeOne? || move.WatchReport? || move.RouseCloser? || move.CheckIdle?
    ensures
      var t := AfterClose(s, closer, move);
      NothingReadied(s, t) && DebtsKept(s, t)
  {
    hide NothingReadied, DebtsKept;
    MovedCloserReadiesNothing(s, AfterClose(s, closer, move), closer);
  }

  lemma EnterCloseKeepsWakeups(s: System, closer: nat)
    requires NoLostWakeup(s) && CloseEnabled(s, closer, EnterClose)
    ensures NoLostWakeup(AfterEnterClose(s, closer))
  {
    var t := AfterEnterClose(s, closer);
    if s.host.closing {
      assert NothingReadied(s, t) && DebtsKept(s, t);
      NothingReadiedKeeps(s, t);
    } else {
      assert t.closes[closer].pc.FirstAnnouncing?;
    }
  }

  lemma WatchEmptyKeepsWakeups(s: System, closer: nat, timedOut: bool)
    requires NoLostWakeup(s) && CloseEnabled(s, closer, WatchEmpty(timedOut))
    ensures NoLostWakeup(AfterWatchEmpty(s, closer, timedOut))
  {
    var t := AfterWatchEmpty(s, closer, timedOut);
    if s.host.live == map[] || timedOut {
      assert t.closes[closer].pc.FirstPublished?;
    } else {
      assert NothingReadied(s, t) && DebtsKept(s, t);
      NothingReadiedKeeps(s, t);
    }
  }

  lemma CloseKeepsWakeups(s: System, closer: nat, move: CloseMove)
    requires NoLostWakeup(s) && CloseEnabled(s, closer, move)
    ensures NoLostWakeup(AfterClose(s, closer, move))
  {
    match move
    case EnterClose => EnterCloseKeepsWakeups(s, closer);
    case WatchEmpty(timedOut) => WatchEmptyKeepsWakeups(s, closer, timedOut);
    case NotifyClosing => NotifiedNobodySleeps(WithCloser(s, closer, FirstInvoking(s.closes[closer].pc.calls)));
    case NotifyPublished =>
      NotifiedNobodySleeps(WithCloser(s, closer, Returning(s.closes[closer].pc.report, false)));
    case _ =>
      CloserMoveReadiesNothing(s, closer, move);
      NothingReadiedKeeps(s, AfterClose(s, closer, move));
  }

  lemma StepKeepsWakeups(s: System, step: Step)
    requires Ledger(s) && NoLostWakeup(s) && Enabled(s, step)
    ensures NoLostWakeup(Apply(s, step))
  {
    match step
    case Register(id, canceller) =>
      RegisterKeepsWakeups(s, id, canceller);
    case TicketStep(serial, move) => TicketKeepsWakeups(s, serial, move);
    case CancelStep(caller, move) => CancelKeepsWakeups(s, caller, move);
    case CloseStep(closer, move) => CloseKeepsWakeups(s, closer, move);
  }
}
