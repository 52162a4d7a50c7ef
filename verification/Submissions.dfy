/**
  Requests on their way through both state machines. A submit registers a ticket
  with the host, begins a record, spawns a thread, waits for a slot, runs its
  handler, ends the ticket and records the outcome; a call does the same on the
  caller's thread. A handler only delivers events and answers; what becomes of the
  answer in the record is the dispatch's own doing. Each action moves one request
  and at most one step of the host and one of the record store.
*/
module Submissions {
  import opened Wrappers
  import opened RecordState
  import Host = HostState
  import Protocol = HostProtocol
  import Store = RecordStore

  /** A `submit` or a `call`, of an ordinary or of a merge request. */
  datatype Kind = Submit | MergeSubmit | Call | MergeCall

  /** The request runs on its caller's thread, and begins its record there. */
  predicate OnCaller(kind: Kind) {
    kind == Call || kind == MergeCall
  }

  predicate IsMerge(kind: Kind) {
    kind == MergeSubmit || kind == MergeCall
  }

  /** What a handler comes back with. */
  datatype Answer = Responded(envelope: Envelope) | Merged(response: MergeResponse) | Declined(error: ModelError)

  /** How far a handler that reports to the record has got; `Noted` once the dispatch has dealt with its answer. */
  datatype Stage = Idle | Reporting | Answered(answer: Answer) | Noted(answer: Answer) | Crashed

  /** What became of the handler, on the thread that ran it. */
  datatype Ending =
    | Unadmitted
    | EntryFailed(error: ModelError)
    | HandlerFailed(message: string)
    | HandlerSucceeded
    | HandlerPanicked

  datatype Submitted = Ran | RanFailed(message: string) | WasRefused(error: ModelError) | Unwound

  /**
    How a thread came to its end: its handler's ending, and whether its host had by then closed at
    interpreter exit.
  */
  datatype End = End(ending: Ending, atExit: bool)

  datatype Exit = NotBegun | NotSpawned | SpawnError(message: string) | Completed(end: End)

  datatype Pc =
    | Registered
    | Begun
    | Spawning
    | DroppingClosure(message: string)
    | DroppingClosureTicket(message: string)
    | RefusingSpawn(message: string)
    | SpawnRefused(message: string)
    | Unwinding(exit: Exit)
    | UnwindingTicket(exit: Exit)
    | Waiting
    | Handling
    | EndingTicket(ending: Ending)
    | Recording(end: End)
    | Releasing(end: End)
    | Over(exit: Exit)

  datatype Request = Request(
    kind: Kind, id: string, meta: RequestMeta, action: nat,
    serial: Option<nat>, record: Option<nat>, pc: Pc,
    submitterHolds: bool, handlerHolds: bool, stage: Stage, handlerWrites: seq<Write>)

  datatype World = World(host: Protocol.System, store: Store.Store, requests: map<nat, Request>)

  const START: World := World(Protocol.INIT, Store.EMPTY, map[])

  datatype Move =
    | BeginRecord
    | GiveUp
    | FailEncoding
    | CloneForSpawn
    | SpawnOk
    | SpawnFails(message: string)
    | DropTicket
    | RefuseSpawn
    | ReleaseOwn
    | AdmitTurn
    | HandlerBegins
    | HandlerClones
    | HandlerBorrows
    | HandlerDelivers(event: Event)
    | HandlerAnswers(answer: Answer)
    | NoteAnswer
    | HandlerReleases
    | HandlerEnds(ending: Ending)
    | EndTicket(cleanup: Option<Host.Cleanup>)
    | RecordOutcome
    | SubmitterReleases

  datatype Action =
    | Arrive(k: nat, kind: Kind, id: string, meta: RequestMeta, action: nat, network: Option<Option<Host.Canceller>>)
    | Take(k: nat, move: Move)
    | StoreAlone(r: nat)
    | HostAlone(step: Protocol.Step)

  // ----- The texts and writes of each path -----

  const CANCELLED_WAITING: ModelError :=
    ModelError(Cancelled, "the network operation was cancelled before it started", None)

  const FAILED_AFTER_EXIT: ModelError :=
    ModelError(InternalError, "the operation failed after its client closed at interpreter exit", None)

  function SpawnRefusal(message: string): ModelError {
    ModelError(IoError, "native worker unavailable: " + message, None)
  }

  /** After a close at interpreter exit a Python error is recorded without its text. */
  function ThreadOutcome(end: End): Submitted {
    match end.ending
    case Unadmitted => WasRefused(CANCELLED_WAITING)
    case EntryFailed(error) => WasRefused(error)
    case HandlerFailed(message) => if end.atExit then WasRefused(FAILED_AFTER_EXIT) else RanFailed(message)
    case HandlerSucceeded => Ran
    case HandlerPanicked => Unwound
  }

  /** What the operation's thread writes of its outcome; a success its handler recorded. */
  function OutcomeWrites(request: Request, end: End): seq<Write> {
    match ThreadOutcome(end)
    case Ran => []
    case RanFailed(message) => [FinishError(request.meta.requestId, request.action, message)]
    case WasRefused(error) => [FinishModelError(request.meta, request.action, error)]
    case Unwound =>
      [FinishPanicError(request.meta.requestId, request.action, "RuntimeError: native operation panicked")]
  }

  predicate AnswerFits(kind: Kind, answer: Answer) {
    answer.Declined? || (answer.Merged? <==> IsMerge(kind))
  }

  /**
    What the dispatch writes of a handler's answer. A failed call ends the record it began,
    a merge records its own failure, and a submit's failure is its thread's to record.
  */
  function AnswerWrite(request: Request, answer: Answer): Option<Write> {
    match answer
    case Responded(envelope) => Some(Finish(envelope))
    case Merged(response) => Some(FinishMerge(response))
    case Declined(error) =>
      if request.kind == Call then Some(Refuse(error))
      else if IsMerge(request.kind) then Some(FinishModelError(request.meta, request.action, error))
      else None
  }

  /** The recorder takes the response: it names an operation ID, and for a merge this one. */
  predicate Accepted(request: Request, answer: Answer) {
    && !answer.Declined? && AnswerWrite(request, answer).Some?
    && Proposes(request.id, AnswerWrite(request, answer).value).Some?
  }

  /** The handler's success: an answer taken, or that of a call which reports nothing. */
  predicate Succeeded(request: Request) {
    (request.stage.Noted? && Accepted(request, request.stage.answer)) || (request.stage.Idle? && OnCaller(request.kind))
  }

  /** A failure without an answer comes before the handler, and any other after its answer was dealt with. */
  predicate EndingFits(request: Request, ending: Ending) {
    match ending
    case Unadmitted => request.stage.Idle?
    case EntryFailed(_) => request.stage.Idle? || request.stage.Noted?
    case HandlerFailed(_) => request.stage.Idle? || request.stage.Noted?
    case HandlerSucceeded => Succeeded(request)
    case HandlerPanicked => request.stage.Crashed? || request.stage.Noted?
  }

  // ----- What each action moves -----

  /** When a request may take a move, as far as the request itself goes. */
  predicate Ready(request: Request, move: Move) {
    match move
    case BeginRecord => request.pc.Registered?
    case GiveUp => request.pc.Registered?
    case FailEncoding => request.pc.Begun?
    case CloneForSpawn => request.pc.Begun? && request.kind == Submit
    case SpawnOk => if request.kind == Submit then request.pc.Spawning? else request.pc.Begun?
    case SpawnFails(_) => if request.kind == Submit then request.pc.Spawning? else request.pc.Begun?
    case DropTicket => request.pc.DroppingClosureTicket? || request.pc.UnwindingTicket?
    case RefuseSpawn => request.pc.RefusingSpawn?
    case ReleaseOwn =>
      request.pc.DroppingClosure? || request.pc.SpawnRefused? || request.pc.Unwinding? || request.pc.Releasing?
    case AdmitTurn => request.pc.Waiting?
    case HandlerBegins => request.pc.Handling? && request.stage.Idle? && OnCaller(request.kind)
    case HandlerClones => request.pc.Handling? && request.stage.Idle? && request.kind == Submit
    case HandlerBorrows => request.pc.Handling? && request.stage.Idle? && request.kind == MergeSubmit
    case HandlerDelivers(_) => request.pc.Handling? && request.stage.Reporting?
    case HandlerAnswers(answer) => request.pc.Handling? && request.stage.Reporting? && AnswerFits(request.kind, answer)
    case NoteAnswer => request.pc.Handling? && request.stage.Answered?
    case HandlerReleases => request.pc.Handling? && request.handlerHolds
    case HandlerEnds(ending) =>
      && request.pc.Handling? && !request.handlerHolds && !ending.Unadmitted?
      && (ending.HandlerPanicked? || EndingFits(request, ending))
    case EndTicket(cleanup) =>
      && request.pc.EndingTicket?
      && (cleanup.Some? ==> !request.pc.ending.Unadmitted? && !request.pc.ending.HandlerPanicked?)
    case RecordOutcome => request.pc.Recording?
    case SubmitterReleases => request.submitterHolds
  }

  /** The move of the request's ticket, if it has one. */
  function TicketMoveOf(request: Request, move: Move): Option<Protocol.TicketMove>
    requires Ready(request, move)
  {
    match move
    case DropTicket => Some(Protocol.Drop)
    case AdmitTurn => Some(Protocol.Admit)
    case EndTicket(cleanup) =>
      Some(if request.pc.ending.HandlerPanicked? then Protocol.Drop else Protocol.Finish(cleanup))
    case _ => None
  }

  function HostStepOf(request: Request, move: Move): Option<Protocol.Step>
    requires Ready(request, move)
  {
    var ticketMove := TicketMoveOf(request, move);
    if request.serial.Some? && ticketMove.Some?
    then Some(Protocol.TicketStep(request.serial.value, ticketMove.value)) else None
  }

  /** The store's move: on the request's own record, or the beginning of it. */
  function StoreMoveOf(request: Request, move: Move): Option<Store.Move>
    requires Ready(request, move)
  {
    var r := request.record.GetOr(0);
    match move
    case BeginRecord => Some(Store.Begin(request.id))
    case HandlerBegins => Some(Store.Begin(request.id))
    case CloneForSpawn => Some(Store.Clone(r))
    case HandlerClones => Some(Store.Clone(r))
    case HandlerDelivers(event) => Some(Store.Record(r, Deliver(event)))
    case NoteAnswer =>
      var write := AnswerWrite(request, request.stage.answer);
      if write.None? then None else Some(Store.Record(r, write.value))
    case RefuseSpawn => Some(Store.Record(r, Refuse(SpawnRefusal(request.pc.message))))
    case RecordOutcome =>
      var writes := OutcomeWrites(request, request.pc.end);
      if writes == [] then None else Some(Store.Record(r, writes[0]))
    case ReleaseOwn => if OnCaller(request.kind) then None else Some(Store.Release(r))
    case HandlerReleases => Some(Store.Release(r))
    case SubmitterReleases => Some(Store.Release(r))
    case _ => None
  }

  function AdmittedPc(pc: Protocol.TicketPc): Pc {
    match pc
    case Running => Handling
    case Refused => EndingTicket(Unadmitted)
    case _ => Waiting
  }

  /** A recorder let go before the answer was dealt with is let go by a panic. */
  function AfterUnwinding(stage: Stage): Stage {
    if stage.Noted? then stage else Crashed
  }

  function ReleasedPc(pc: Pc): Pc {
    match pc
    case DroppingClosure(message) => DroppingClosureTicket(message)
    case SpawnRefused(message) => Over(SpawnError(message))
    case Unwinding(exit) => UnwindingTicket(exit)
    case Releasing(end) => Over(Completed(end))
    case _ => pc
  }

  /**
    The request after its move: `next` is the index of a record begun by it,
    `ticketPc` where its ticket now is, and `exiting` whether the host had closed at
    interpreter exit when the ticket ended.
  */
  function Moved(request: Request, move: Move, next: nat, ticketPc: Protocol.TicketPc, exiting: bool): Request
    requires Ready(request, move)
  {
    match move
    case BeginRecord => request.(record := Some(next), pc := Begun)
    case GiveUp => request.(pc := UnwindingTicket(NotBegun))
    case FailEncoding => request.(pc := Unwinding(NotSpawned))
    case CloneForSpawn => request.(pc := Spawning)
    case SpawnOk => request.(pc := Waiting, submitterHolds := request.kind == Submit)
    case SpawnFails(message) =>
      request.(pc := if request.kind == Submit then DroppingClosure(message) else Unwinding(NotSpawned))
    case DropTicket =>
      request.(pc := if request.pc.UnwindingTicket? then Over(request.pc.exit) else RefusingSpawn(request.pc.message))
    case RefuseSpawn => request.(pc := SpawnRefused(request.pc.message))
    case ReleaseOwn => request.(pc := ReleasedPc(request.pc))
    case AdmitTurn => request.(pc := if request.serial.Some? then AdmittedPc(ticketPc) else Handling)
    case HandlerBegins => request.(record := Some(next), handlerHolds := true, stage := Reporting)
    case HandlerClones => request.(handlerHolds := true, stage := Reporting)
    case HandlerBorrows => request.(stage := Reporting)
    case HandlerDelivers(event) => request.(handlerWrites := request.handlerWrites + [Deliver(event)])
    case HandlerAnswers(answer) => request.(stage := Answered(answer))
    case NoteAnswer =>
      var write := AnswerWrite(request, request.stage.answer);
      request.(stage := Noted(request.stage.answer),
               handlerWrites := request.handlerWrites + (if write.Some? then [write.value] else []))
    case HandlerReleases => request.(handlerHolds := false, stage := AfterUnwinding(request.stage))
    case HandlerEnds(ending) =>
      request.(pc := EndingTicket(ending),
               stage := if ending.HandlerPanicked? then AfterUnwinding(request.stage) else request.stage)
    case EndTicket(_) =>
      var end := End(request.pc.ending, request.serial.Some? && exiting);
      request.(pc := if request.kind == Submit then Recording(end) else Releasing(end))
    case RecordOutcome => request.(pc := Releasing(request.pc.end))
    case SubmitterReleases => request.(submitterHolds := false)
  }

  // ----- The composed transition system -----

  /** The host's own steps: cancelling, closing, waking, and what a ticket does after its end. */
  predicate HostsOwn(host: Protocol.System, step: Protocol.Step) {
    match step
    case Register(_, _) => false
    case TicketStep(serial, move) =>
      move.NotifyEnded? || move.Wake? ||
      (move.Drop? && serial in host.tickets && host.tickets[serial].pc == Protocol.Finished)
    case _ => true
  }

  predicate TakeEnabled(w: World, k: nat, move: Move) {
    && k in w.requests && Ready(w.requests[k], move)
    && (HostStepOf(w.requests[k], move).Some? ==> Protocol.Enabled(w.host, HostStepOf(w.requests[k], move).value))
    && (StoreMoveOf(w.requests[k], move).Some? ==> Store.Enabled(w.store, StoreMoveOf(w.requests[k], move).value))
  }

  predicate Enabled(w: World, action: Action) {
    match action
    case Arrive(k, kind, id, _, _, network) =>
      && k !in w.requests && (kind == MergeSubmit ==> network.None?)
      && (network.Some? ==> Protocol.Enabled(w.host, Protocol.Register(id, network.value)))
    case Take(k, move) => TakeEnabled(w, k, move)
    case StoreAlone(r) => Store.Enabled(w.store, Store.FinishDrop(r))
    case HostAlone(step) => HostsOwn(w.host, step) && Protocol.Enabled(w.host, step)
  }

  function Stepped(host: Protocol.System, step: Option<Protocol.Step>): Protocol.System
    requires step.Some? ==> Protocol.Enabled(host, step.value)
  {
    if step.Some? then Protocol.Apply(host, step.value) else host
  }

  function TicketPcOf(host: Protocol.System, request: Request): Protocol.TicketPc {
    if request.serial.Some? && request.serial.value in host.tickets
    then host.tickets[request.serial.value].pc else Protocol.Dropped
  }

  function AfterTake(w: World, k: nat, move: Move): World
    requires TakeEnabled(w, k, move)
  {
    var request := w.requests[k];
    var host := Stepped(w.host, HostStepOf(request, move));
    var store :=
      if StoreMoveOf(request, move).Some? then Store.Apply(w.store, StoreMoveOf(request, move).value) else w.store;
    var moved := Moved(request, move, |w.store.records|, TicketPcOf(host, request), w.host.host.exiting);
    World(host, store, w.requests[k := moved])
  }

  function AfterArrive(w: World, action: Action): World
    requires action.Arrive? && Enabled(w, action)
  {
    var network := action.network;
    var serial := if network.Some? then Some(w.host.host.registered + 1) else None;
    var request := Request(action.kind, action.id, action.meta, action.action, serial, None,
                           if OnCaller(action.kind) then Waiting else Registered, false, false, Idle, []);
    var step := if network.Some? then Some(Protocol.Register(action.id, network.value)) else None;
    World(Stepped(w.host, step), w.store, w.requests[action.k := request])
  }

  function Apply(w: World, action: Action): World
    requires Enabled(w, action)
  {
    match action
    case Arrive(_, _, _, _, _, _) => AfterArrive(w, action)
    case Take(k, move) => AfterTake(w, k, move)
    case StoreAlone(r) => w.(store := Store.Apply(w.store, Store.FinishDrop(r)))
    case HostAlone(step) => w.(host := Protocol.Apply(w.host, step))
  }

  ghost predicate Next(w: World, after: World) {
    exists action :: Enabled(w, action) && after == Apply(w, action)
  }

  ghost predicate Follows(run: seq<World>, i: nat)
    requires 0 < i < |run|
  {
    Next(run[i - 1], run[i])
  }

  ghost predicate Run(run: seq<World>) {
    |run| > 0 && run[0] == START && forall i :: 0 < i < |run| ==> Follows(run, i)
  }
}
