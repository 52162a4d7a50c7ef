/**
  The threads that meet at a host's lock. A step is one critical section, or one
  action outside the lock: calling a canceller, or notifying the condition
  variable, which happens only after the lock is dropped. A thread asleep on the
  condition variable wakes when it is notified, and may wake without cause; a
  deadline is a choice to stop waiting. `ended` and `publishedAt` are history: no
  step reads them.
*/
module HostProtocol {
  import opened Wrappers
  import opened HostState

  /** Where the thread that holds a ticket is. */
  datatype TicketPc = Fresh | Checking | Asleep | Refused | Running | Notifying | Finished | Dropped

  datatype Ticket = Ticket(id: OperationId, admitted: bool, ended: bool, pc: TicketPc)

  datatype CancelReply =
    | NothingLive
    | Unsupported
    | CancelledWaiting(serial: nat)
    | Ended(serial: nat, at: nat, cleanup: Cleanup)
    | TimedOut(serial: nat)

  datatype CancelPc =
    | Calling(id: OperationId)
    | Announcing(serial: nat)
    | Invoking(id: OperationId, serial: nat, canceller: Canceller)
    | Watching(id: OperationId, serial: nat)
    | Sleeping(id: OperationId, serial: nat)
    | Replied(reply: CancelReply)

  datatype ClosePc =
    | Entering
    | FirstAnnouncing(calls: set<(nat, Canceller)>)
    | FirstInvoking(calls: set<(nat, Canceller)>)
    | FirstWatching
    | FirstSleeping
    | FirstPublished(report: Cleanup)
    | LaterWatching
    | LaterSleeping
    | Returning(report: Cleanup, interim: bool)
    | Closed(report: Cleanup, interim: bool)

  datatype Closer = Closer(exit: bool, pc: ClosePc)

  /** How one registration ended. */
  datatype EndRecord = EndRecord(
    serial: nat, id: OperationId, admitted: bool, cancelled: bool, cleanup: Option<Cleanup>)

  datatype System = System(
    host: Host,
    tickets: map<nat, Ticket>,
    cancels: map<nat, CancelPc>,
    closes: map<nat, Closer>,
    called: set<nat>,
    hooked: bool,
    ended: seq<EndRecord>,
    publishedAt: nat)

  const INIT: System := System(NEW_HOST, map[], map[], map[], {}, true, [], 0)

  datatype TicketMove = Admit | Finish(cleanup: Option<Cleanup>) | Drop | NotifyEnded | Wake

  datatype CancelMove = Call(id: OperationId) | Enter | NotifyCancelled | Invoke | Watch(timedOut: bool) | Rouse

  datatype CloseMove =
    | Begin(exit: bool)
    | EnterClose
    | NotifyClosing
    | InvokeOne(call: (nat, Canceller))
    | WatchEmpty(timedOut: bool)
    | NotifyPublished
    | WatchReport(timedOut: bool)
    | RouseCloser
    | CheckIdle

  datatype Step =
    | Register(id: OperationId, canceller: Option<Canceller>)
    | TicketStep(serial: nat, ticketMove: TicketMove)
    | CancelStep(caller: nat, cancelMove: CancelMove)
    | CloseStep(closer: nat, closeMove: CloseMove)

  // ----- Waking -----

  function WokenTicket(ticket: Ticket): Ticket {
    if ticket.pc == Asleep then ticket.(pc := Checking) else ticket
  }

  function WokenCancel(pc: CancelPc): CancelPc {
    if pc.Sleeping? then Watching(pc.id, pc.serial) else pc
  }

  function WokenCloser(closer: Closer): Closer {
    match closer.pc
    case FirstSleeping => closer.(pc := FirstWatching)
    case LaterSleeping => closer.(pc := LaterWatching)
    case _ => closer
  }

  /** `notify_all`: every sleeper has to look again. */
  function NotifyAll(s: System): System {
    s.(tickets := map t | t in s.tickets :: WokenTicket(s.tickets[t]),
       cancels := map c | c in s.cancels :: WokenCancel(s.cancels[c]),
       closes := map c | c in s.closes :: WokenCloser(s.closes[c]))
  }

  // ----- A ticket's own steps -----

  function WithTicket(s: System, serial: nat, ticket: Ticket): System {
    s.(tickets := s.tickets[serial := ticket])
  }

  function AfterRegister(s: System, id: OperationId, host: Host): System {
    WithTicket(s.(host := host), host.registered, Ticket(id, false, false, Fresh))
  }

  function AfterAdmit(s: System, serial: nat): System
    requires serial in s.tickets
  {
    var ticket := s.tickets[serial];
    match TryAdmit(s.host, ticket.id, serial)
    case Admitted(host) => WithTicket(s.(host := host), serial, ticket.(admitted := true, pc := Running))
    case RefusedCancelled => WithTicket(s, serial, ticket.(pc := Refused))
    case MustWait => WithTicket(s, serial, ticket.(pc := Asleep))
  }

  /** `Ticket::end`, which both `finish` and a drop reach. */
  function AfterEnd(s: System, serial: nat, cleanup: Option<Cleanup>): System
    requires serial in s.tickets
  {
    var ticket := s.tickets[serial];
    var record := EndRecord(serial, ticket.id, ticket.admitted, WasCancelled(s.host, ticket.id, serial), cleanup);
    WithTicket(
      s.(host := End(s.host, ticket.id, serial, ticket.admitted, cleanup), ended := s.ended + [record]),
      serial, ticket.(ended := true, pc := Notifying))
  }

  function AfterDrop(s: System, serial: nat): System
    requires serial in s.tickets
  {
    if s.tickets[serial].ended then WithTicket(s, serial, s.tickets[serial].(pc := Dropped))
    else AfterEnd(s, serial, None)
  }

  // ----- A cancelling thread's steps -----

  function WithCancel(s: System, caller: nat, pc: CancelPc): System {
    s.(cancels := s.cancels[caller := pc])
  }

  function AfterEnterCancel(s: System, caller: nat): System
    requires caller in s.cancels && s.cancels[caller].Calling?
  {
    var id := s.cancels[caller].id;
    match HostState.EnterCancel(s.host, id)
    case NotLive => WithCancel(s, caller, Replied(NothingLive))
    case NoCanceller => WithCancel(s, caller, Replied(Unsupported))
    case WasWaiting(host, serial) => WithCancel(s.(host := host), caller, Announcing(serial))
    case WasRunning(host, serial, canceller) =>
      WithCancel(s.(host := host), caller, Invoking(id, serial, canceller))
  }

  function AfterWatchCancelled(s: System, caller: nat, timedOut: bool): System
    requires caller in s.cancels && s.cancels[caller].Watching?
  {
    var pc := s.cancels[caller];
    match ObserveEnd(s.host, pc.id, pc.serial)
    case Some(cleanup) => WithCancel(s, caller, Replied(Ended(pc.serial, |s.ended|, cleanup)))
    case None => WithCancel(s, caller, if timedOut then Replied(TimedOut(pc.serial)) else Sleeping(pc.id, pc.serial))
  }

  // ----- A closing thread's steps -----

  function WithCloser(s: System, closer: nat, pc: ClosePc): System
    requires closer in s.closes
  {
    s.(closes := s.closes[closer := s.closes[closer].(pc := pc)])
  }

  function AfterEnterClose(s: System, closer: nat): System
    requires closer in s.closes
  {
    var entered := s.(host := BeginClose(s.host, s.closes[closer].exit));
    WithCloser(entered, closer,
               if s.host.closing then LaterWatching else FirstAnnouncing(RunningCancellers(s.host.live)))
  }

  function AfterInvokeOne(s: System, closer: nat, call: (nat, Canceller)): System
    requires closer in s.closes && s.closes[closer].pc.FirstInvoking? && call in s.closes[closer].pc.calls
  {
    WithCloser(s.(called := s.called + {call.0}), closer, FirstInvoking(s.closes[closer].pc.calls - {call}))
  }

  function AfterPublish(s: System, closer: nat): System
    requires closer in s.closes
  {
    var host := Publish(s.host);
    WithCloser(s.(host := host, publishedAt := |s.ended|), closer, FirstPublished(host.report.value))
  }

  function AfterWatchEmpty(s: System, closer: nat, timedOut: bool): System
    requires closer in s.closes
  {
    if s.host.live == map[] || timedOut then AfterPublish(s, closer)
    else WithCloser(s, closer, FirstSleeping)
  }

  function AfterWatchReport(s: System, closer: nat, timedOut: bool): System
    requires closer in s.closes
  {
    if LaterCloseDone(s.host, s.closes[closer].exit) || timedOut
    then WithCloser(s, closer, Returning(LaterReport(s.host), s.host.report.None?))
    else WithCloser(s, closer, LaterSleeping)
  }

  /** A close that Python called unregisters the exit hook once nothing is live. */
  function AfterCheckIdle(s: System, closer: nat): System
    requires closer in s.closes && s.closes[closer].pc.Returning?
  {
    var pc := s.closes[closer].pc;
    var unhook := !s.closes[closer].exit && s.host.live == map[];
    WithCloser(s.(hooked := s.hooked && !unhook), closer, Closed(pc.report, pc.interim))
  }

  // ----- The transition system -----

  predicate TicketAt(s: System, serial: nat, pcs: set<TicketPc>) {
    serial in s.tickets && s.tickets[serial].pc in pcs
  }

  predicate TicketEnabled(s: System, serial: nat, move: TicketMove) {
    match move
    case Admit => TicketAt(s, serial, {Fresh, Checking})
    case Finish(cleanup) =>
      TicketAt(s, serial, {Refused, Running}) && (s.tickets[serial].pc == Refused ==> cleanup.None?)
    case Drop => TicketAt(s, serial, {Fresh, Refused, Running, Finished})
    case NotifyEnded => TicketAt(s, serial, {Notifying})
    case Wake => TicketAt(s, serial, {Asleep})
  }

  function AfterTicket(s: System, serial: nat, move: TicketMove): System
    requires TicketEnabled(s, serial, move)
  {
    match move
    case Admit => AfterAdmit(s, serial)
    case Finish(cleanup) => AfterEnd(s, serial, cleanup)
    case Drop => AfterDrop(s, serial)
    case NotifyEnded => NotifyAll(WithTicket(s, serial, s.tickets[serial].(pc := Finished)))
    case Wake => WithTicket(s, serial, WokenTicket(s.tickets[serial]))
  }

  predicate CancelEnabled(s: System, caller: nat, move: CancelMove) {
    if move.Call? then caller !in s.cancels
    else
      && caller in s.cancels
      && match move
         case Enter => s.cancels[caller].Calling?
         case NotifyCancelled => s.cancels[caller].Announcing?
         case Invoke => s.cancels[caller].Invoking?
         case Watch(_) => s.cancels[caller].Watching?
         case _ => s.cancels[caller].Sleeping?
  }

  function AfterCancel(s: System, caller: nat, move: CancelMove): System
    requires CancelEnabled(s, caller, move)
  {
    match move
    case Call(id) => WithCancel(s, caller, Calling(id))
    case Enter => AfterEnterCancel(s, caller)
    case NotifyCancelled => NotifyAll(WithCancel(s, caller, Replied(CancelledWaiting(s.cancels[caller].serial))))
    case Invoke =>
      var pc := s.cancels[caller];
      WithCancel(s.(called := s.called + {pc.serial}), caller, Watching(pc.id, pc.serial))
    case Watch(timedOut) => AfterWatchCancelled(s, caller, timedOut)
    case Rouse => WithCancel(s, caller, WokenCancel(s.cancels[caller]))
  }

  predicate CloseEnabled(s: System, closer: nat, move: CloseMove) {
    if move.Begin? then closer !in s.closes
    else
      && closer in s.closes
      && var pc := s.closes[closer].pc;
         match move
         case EnterClose => pc.Entering?
         case NotifyClosing => pc.FirstAnnouncing?
         case InvokeOne(call) => pc.FirstInvoking? && call in pc.calls
         case WatchEmpty(_) => pc.FirstWatching? || (pc.FirstInvoking? && pc.calls == {})
         case NotifyPublished => pc.FirstPublished?
         case WatchReport(_) => pc.LaterWatching?
         case CheckIdle => pc.Returning?
         case _ => pc.FirstSleeping? || pc.LaterSleeping?
  }

  function AfterClose(s: System, closer: nat, move: CloseMove): System
    requires CloseEnabled(s, closer, move)
  {
    match move
    case Begin(exit) => s.(closes := s.closes[closer := Closer(exit, Entering)])
    case EnterClose => AfterEnterClose(s, closer)
    case NotifyClosing => NotifyAll(WithCloser(s, closer, FirstInvoking(s.closes[closer].pc.calls)))
    case InvokeOne(call) => AfterInvokeOne(s, closer, call)
    case WatchEmpty(timedOut) => AfterWatchEmpty(s, closer, timedOut)
    case NotifyPublished => NotifyAll(WithCloser(s, closer, Returning(s.closes[closer].pc.report, false)))
    case WatchReport(timedOut) => AfterWatchReport(s, closer, timedOut)
    case RouseCloser => s.(closes := s.closes[closer := WokenCloser(s.closes[closer])])
    case CheckIdle => AfterCheckIdle(s, closer)
  }

  predicate Enabled(s: System, step: Step) {
    match step
    case Register(id, canceller) => HostState.Register(s.host, id, canceller).Registered?
    case TicketStep(serial, move) => TicketEnabled(s, serial, move)
    case CancelStep(caller, move) => CancelEnabled(s, caller, move)
    case CloseStep(closer, move) => CloseEnabled(s, closer, move)
  }

  function Apply(s: System, step: Step): System
    requires Enabled(s, step)
  {
    match step
    case Register(id, canceller) => AfterRegister(s, id, HostState.Register(s.host, id, canceller).host)
    case TicketStep(serial, move) => AfterTicket(s, serial, move)
    case CancelStep(caller, move) => AfterCancel(s, caller, move)
    case CloseStep(closer, move) => AfterClose(s, closer, move)
  }

  ghost predicate Next(s: System, t: System) {
    exists step :: Enabled(s, step) && t == Apply(s, step)
  }

  ghost predicate Follows(run: seq<System>, i: nat)
    requires 0 < i < |run|
  {
    Next(run[i - 1], run[i])
  }

  /** A run: from the new host, one step at a time. */
  ghost predicate Run(run: seq<System>) {
    |run| > 0 && run[0] == INIT && forall i :: 0 < i < |run| ==> Follows(run, i)
  }

  ghost predicate Reachable(s: System) {
    exists run :: Run(run) && run[|run| - 1] == s
  }
}
