/**
  Every request settles: whatever happens on its way, its ticket ends once, its
  slot and ID come free, and its record, once begun, ends with one outcome.
*/
module Settlement {
  import opened Wrappers
  import opened RecordState
  import opened Submissions
  import Host = HostState
  import Protocol = HostProtocol
  import HostLedger
  import HostRuns
  import Store = RecordStore

  // ----- What a request holds -----

  /** How many recorders of its record the request's threads hold between them. */
  function Handles(request: Request): nat {
    (match request.pc
     case Begun => 1
     case Spawning => 2
     case DroppingClosure(_) => 2
     case DroppingClosureTicket(_) => 1
     case RefusingSpawn(_) => 1
     case SpawnRefused(_) => 1
     case Unwinding(_) => 1
     case Waiting => if OnCaller(request.kind) then 0 else 1
     case Handling => if OnCaller(request.kind) then 0 else 1
     case EndingTicket(_) => if OnCaller(request.kind) then 0 else 1
     case Recording(_) => 1
     case Releasing(_) => if OnCaller(request.kind) then 0 else 1
     case _ => 0)
    + (if request.submitterHolds then 1 else 0) + (if request.handlerHolds then 1 else 0)
  }

  predicate BeforeThread(pc: Pc) {
    || pc.Registered? || pc.Begun? || pc.Spawning? || pc.DroppingClosure? || pc.DroppingClosureTicket?
    || pc.RefusingSpawn? || pc.SpawnRefused? || pc.Unwinding? || pc.UnwindingTicket?
    || (pc.Over? && !pc.exit.Completed?)
  }

  predicate OnlySubmits(pc: Pc) {
    || pc.Spawning? || pc.DroppingClosure? || pc.DroppingClosureTicket? || pc.RefusingSpawn? || pc.SpawnRefused?
    || pc.Recording? || (pc.Over? && pc.exit.SpawnError?)
  }

  predicate Unbegun(pc: Pc) {
    pc.Registered? || pc == UnwindingTicket(NotBegun) || pc == Over(NotBegun)
  }

  /** The places a request can be in, and what it may hold there. */
  predicate PlacesFit(request: Request) {
    && (BeforeThread(request.pc) ==> !OnCaller(request.kind) && !request.submitterHolds && request.stage.Idle?)
    && (OnlySubmits(request.pc) ==> request.kind == Submit)
    && (!OnCaller(request.kind) ==> (request.record.None? <==> Unbegun(request.pc)))
    && (request.record.None? ==> request.handlerWrites == [] && !request.handlerHolds)
    && (request.submitterHolds ==> request.kind == Submit)
    && (request.handlerHolds ==> request.pc.Handling? && !request.stage.Idle? && !request.stage.Crashed?)
    && (request.pc.Unwinding? ==> request.pc.exit == NotSpawned)
    && (request.pc.UnwindingTicket? ==> request.pc.exit == NotBegun || request.pc.exit == NotSpawned)
    && (request.kind == MergeSubmit ==> request.serial.None?)
    && (request.serial.None? ==> request.pc != EndingTicket(Unadmitted))
  }

  /** How far the handler has got, place by place. */
  predicate StagesFit(request: Request) {
    && (request.pc.Waiting? ==> request.stage.Idle?)
    && (request.stage.Idle? ==> request.handlerWrites == [] && (OnCaller(request.kind) ==> request.record.None?))
    && (request.stage.Reporting? || request.stage.Answered? ==>
          && request.pc.Handling? && request.record.Some?
          && (request.kind != MergeSubmit ==> request.handlerHolds))
    && (request.stage.Noted? ==> request.record.Some?)
    && (request.stage.Answered? || request.stage.Noted? ==> AnswerFits(request.kind, request.stage.answer))
    && match request.pc
       case EndingTicket(ending) => EndingFits(request, ending)
       case Recording(end) => EndingFits(request, end.ending)
       case Releasing(end) => EndingFits(request, end.ending)
       case Over(Completed(end)) => EndingFits(request, end.ending)
       case _ => true
  }

  /** The outcome that dealing with the answer proposed, if it did. */
  function NotedOutcome(request: Request): Option<Outcome> {
    if request.stage.Noted? && AnswerWrite(request, request.stage.answer).Some?
    then Proposes(request.id, AnswerWrite(request, request.stage.answer).value) else None
  }

  /** Nothing in the handler's stage records an outcome but the dispatch's dealing with the answer. */
  predicate AnswerIsFirst(request: Request) {
    FirstTerminal(request.id, request.handlerWrites) == NotedOutcome(request)
  }

  predicate ShapeFits(request: Request) {
    PlacesFit(request) && StagesFit(request) && AnswerIsFirst(request)
  }

  lemma PlacesStay(request: Request, move: Move, next: nat, ticketPc: Protocol.TicketPc, exiting: bool)
    requires PlacesFit(request) && StagesFit(request) && Ready(request, move)
    ensures PlacesFit(Moved(request, move, next, ticketPc, exiting))
  {
    hide EndingFits, ThreadOutcome, AnswerFits;
  }

  lemma StagesStay(request: Request, move: Move, next: nat, ticketPc: Protocol.TicketPc, exiting: bool)
    requires PlacesFit(request) && StagesFit(request) && Ready(request, move)
    ensures StagesFit(Moved(request, move, next, ticketPc, exiting))
  {
    hide AnswerFits;
  }

  lemma AnswerStaysFirst(request: Request, move: Move, next: nat, ticketPc: Protocol.TicketPc, exiting: bool)
    requires StagesFit(request) && AnswerIsFirst(request) && Ready(request, move)
    ensures AnswerIsFirst(Moved(request, move, next, ticketPc, exiting))
  {
    hide ThreadOutcome, EndingFits;
    match move
    case HandlerDelivers(event) => FirstTerminalOfAppended(request.id, request.handlerWrites, [Deliver(event)]);
    case NoteAnswer =>
      var write := AnswerWrite(request, request.stage.answer);
      if write.Some? {
        FirstTerminalOfAppended(request.id, request.handlerWrites, [write.value]);
        assert [write.value][1..] == [];
      } else {
        assert request.handlerWrites + [] == request.handlerWrites;
      }
    case _ =>
  }

  lemma ShapeStays(request: Request, move: Move, next: nat, ticketPc: Protocol.TicketPc, exiting: bool)
    requires ShapeFits(request) && Ready(request, move)
    ensures ShapeFits(Moved(request, move, next, ticketPc, exiting))
  {
    hide PlacesFit, StagesFit, AnswerIsFirst, Ready, Moved;
    PlacesStay(request, move, next, ticketPc, exiting);
    StagesStay(request, move, next, ticketPc, exiting);
    AnswerStaysFirst(request, move, next, ticketPc, exiting);
  }

  /** The writes made through the request's own recorders. */
  function OwnWrites(request: Request): seq<Write> {
    match request.pc
    case SpawnRefused(message) => [Refuse(SpawnRefusal(message))]
    case Over(SpawnError(message)) => [Refuse(SpawnRefusal(message))]
    case Releasing(end) => CompletedWrites(request, end)
    case Over(Completed(end)) => CompletedWrites(request, end)
    case _ => request.handlerWrites
  }

  function CompletedWrites(request: Request, end: End): seq<Write> {
    request.handlerWrites + (if request.kind == Submit then OutcomeWrites(request, end) else [])
  }

  // ----- Coupling the request to its ticket and its record -----

  predicate PcMatches(pc: Pc, ticket: Protocol.Ticket) {
    match pc
    case Registered | Begun | Spawning | DroppingClosure(_) | DroppingClosureTicket(_) | Unwinding(_)
       | UnwindingTicket(_) => ticket.pc == Protocol.Fresh
    case Waiting => ticket.pc == Protocol.Fresh || ticket.pc == Protocol.Checking || ticket.pc == Protocol.Asleep
    case Handling => ticket.pc == Protocol.Running
    case EndingTicket(ending) => ticket.pc == if ending.Unadmitted? then Protocol.Refused else Protocol.Running
    case _ => ticket.ended
  }

  predicate TicketFits(tickets: map<nat, Protocol.Ticket>, request: Request) {
    request.serial.Some? ==>
      && request.serial.value in tickets && tickets[request.serial.value].id == request.id
      && PcMatches(request.pc, tickets[request.serial.value])
  }

  /** A record holds its own recorders' writes, and the abandonment once the last of them is gone. */
  predicate WritesSettled(held: Store.Held, own: seq<Write>) {
    if held.handles > 0 then held.writes == own && !held.dropping
    else held.writes == if held.dropping then own else own + [Abandon]
  }

  predicate RecordFits(records: seq<Store.Held>, request: Request) {
    request.record.Some? ==>
      && request.record.value < |records| && records[request.record.value].id == request.id
      && records[request.record.value].handles == Handles(request)
      && WritesSettled(records[request.record.value], OwnWrites(request))
  }

  ghost predicate Apart(requests: map<nat, Request>) {
    forall j, k :: j in requests && k in requests && j != k ==>
      && (requests[j].serial.Some? ==> requests[j].serial != requests[k].serial)
      && (requests[j].record.Some? ==> requests[j].record != requests[k].record)
  }

  ghost predicate AllFit(w: World) {
    forall k :: k in w.requests ==>
      && ShapeFits(w.requests[k])
      && TicketFits(w.host.tickets, w.requests[k])
      && RecordFits(w.store.records, w.requests[k])
  }

  ghost predicate Coupled(w: World) {
    HostRuns.Invariant(w.host) && Store.StoreFits(w.store) && Apart(w.requests) && AllFit(w)
  }

  // ----- How others see a step -----

  /** A ticket that another request's step, or the host's own, may have woken or tidied up. */
  predicate Steady(was: Protocol.Ticket, now: Protocol.Ticket) {
    now.id == was.id && (now == was || now == Protocol.WokenTicket(was) || (was.ended && now.ended))
  }

  ghost predicate SteadyExcept(tickets: map<nat, Protocol.Ticket>, tickets': map<nat, Protocol.Ticket>,
                               own: Option<nat>) {
    forall serial :: serial in tickets && own != Some(serial) ==>
      serial in tickets' && Steady(tickets[serial], tickets'[serial])
  }

  lemma TicketMoveIsSteady(s: Protocol.System, serial: nat, move: Protocol.TicketMove)
    requires HostLedger.PcsFit(s.tickets) && Protocol.TicketEnabled(s, serial, move)
    ensures SteadyExcept(s.tickets, Protocol.AfterTicket(s, serial, move).tickets, Some(serial))
  {
    hide Host.TryAdmit, Host.End, Protocol.WokenCancel, Protocol.WokenCloser;
  }

  lemma TidyingIsSteady(s: Protocol.System, serial: nat, move: Protocol.TicketMove)
    requires HostLedger.PcsFit(s.tickets) && Protocol.TicketEnabled(s, serial, move)
    requires HostsOwn(s, Protocol.TicketStep(serial, move))
    ensures SteadyExcept(s.tickets, Protocol.AfterTicket(s, serial, move).tickets, None)
  {
    assert HostLedger.PcFits(s.tickets[serial]);
  }

  lemma CancelMoveIsSteady(s: Protocol.System, caller: nat, move: Protocol.CancelMove)
    requires Protocol.CancelEnabled(s, caller, move)
    ensures SteadyExcept(s.tickets, Protocol.AfterCancel(s, caller, move).tickets, None)
  {
  }

  lemma CloseMoveIsSteady(s: Protocol.System, closer: nat, move: Protocol.CloseMove)
    requires Protocol.CloseEnabled(s, closer, move)
    ensures SteadyExcept(s.tickets, Protocol.AfterClose(s, closer, move).tickets, None)
  {
  }

  lemma HostsOwnIsSteady(s: Protocol.System, step: Protocol.Step)
    requires HostLedger.PcsFit(s.tickets) && HostsOwn(s, step) && Protocol.Enabled(s, step)
    ensures SteadyExcept(s.tickets, Protocol.Apply(s, step).tickets, None)
  {
    match step
    case TicketStep(serial, move) => TidyingIsSteady(s, serial, move);
    case CancelStep(caller, move) => CancelMoveIsSteady(s, caller, move);
    case CloseStep(closer, move) => CloseMoveIsSteady(s, closer, move);
    case _ =>
  }

  lemma SteadyTicketFits(tickets: map<nat, Protocol.Ticket>, tickets': map<nat, Protocol.Ticket>,
                         own: Option<nat>, request: Request)
    requires SteadyExcept(tickets, tickets', own) && TicketFits(tickets, request) && HostLedger.PcsFit(tickets)
    requires request.serial.None? || request.serial != own
    ensures TicketFits(tickets', request)
  {
    if request.serial.Some? {
      assert HostLedger.PcFits(tickets[request.serial.value]);
    }
  }

  // ----- The request's own ticket -----

  lemma UnmovedTicketMatches(request: Request, move: Move, next: nat, pc: Protocol.TicketPc, exiting: bool,
                             ticket: Protocol.Ticket)
    requires ShapeFits(request) && Ready(request, move) && PcMatches(request.pc, ticket)
    requires TicketMoveOf(request, move).None?
    ensures PcMatches(Moved(request, move, next, pc, exiting).pc, ticket)
  {
  }

  lemma TicketAfterMove(s: Protocol.System, serial: nat, move: Protocol.TicketMove)
    requires Protocol.TicketEnabled(s, serial, move) && (move.Admit? || move.Finish? || move.Drop?)
    ensures
      var t := Protocol.AfterTicket(s, serial, move);
      && t.tickets.Keys == s.tickets.Keys && t.tickets[serial].id == s.tickets[serial].id
      && if move.Admit?
         then var pc := t.tickets[serial].pc; pc == Protocol.Running || pc == Protocol.Refused || pc == Protocol.Asleep
         else t.tickets[serial].ended
  {
    hide Host.TryAdmit, Host.End, Protocol.NotifyAll;
  }

  /** A waiting request follows its ticket's admission; every other move of a ticket is its end. */
  lemma MovedTicketMatches(request: Request, move: Move, next: nat, exiting: bool, ticket: Protocol.Ticket)
    requires request.serial.Some? && Ready(request, move) && TicketMoveOf(request, move).Some?
    requires move.AdmitTurn? ==>
               ticket.pc == Protocol.Running || ticket.pc == Protocol.Refused || ticket.pc == Protocol.Asleep
    requires !move.AdmitTurn? ==> ticket.ended
    ensures PcMatches(Moved(request, move, next, ticket.pc, exiting).pc, ticket)
  {
  }

  lemma OwnTicketFits(s: Protocol.System, request: Request, move: Move, exiting: bool, next: nat)
    requires HostLedger.PcsFit(s.tickets) && ShapeFits(request) && TicketFits(s.tickets, request) &&
               Ready(request, move)
    requires HostStepOf(request, move).Some? ==> Protocol.Enabled(s, HostStepOf(request, move).value)
    ensures
      var t := Stepped(s, HostStepOf(request, move));
      && TicketFits(t.tickets, Moved(request, move, next, TicketPcOf(t, request), exiting))
      && (move.AdmitTurn? && request.serial.Some? ==> TicketPcOf(t, request) != Protocol.Fresh)
  {
    var t := Stepped(s, HostStepOf(request, move));
    MovedKeepsIdentity(request, move, next, TicketPcOf(t, request), exiting);
    if request.serial.Some? {
      assert HostLedger.PcFits(s.tickets[request.serial.value]);
      if TicketMoveOf(request, move).Some? {
        TicketAfterMove(s, request.serial.value, TicketMoveOf(request, move).value);
        MovedTicketMatches(request, move, next, exiting, t.tickets[request.serial.value]);
      } else {
        UnmovedTicketMatches(request, move, next, TicketPcOf(t, request), exiting, s.tickets[request.serial.value]);
      }
    }
  }

  lemma MovedKeepsIdentity(request: Request, move: Move, next: nat, pc: Protocol.TicketPc, exiting: bool)
    requires Ready(request, move)
    ensures
      var moved := Moved(request, move, next, pc, exiting);
      && moved.serial == request.serial && moved.id == request.id && moved.kind == request.kind
      && moved.record == if move.BeginRecord? || move.HandlerBegins? then Some(next) else request.record
  {
  }

  // ----- The request's own record -----

  /** How a move changes what the request's threads hold and have written: as the store's move does. */
  predicate HoldingsFollow(request: Request, move: Move, moved: Request)
    requires Ready(request, move)
  {
    match StoreMoveOf(request, move)
    case None => Handles(moved) == Handles(request) && OwnWrites(moved) == OwnWrites(request)
    case Some(Begin(id)) => request.record.None? && Handles(moved) == 1 && OwnWrites(moved) == [] && id == request.id
    case Some(Clone(r)) =>
      && request.record == Some(r) && Handles(request) > 0
      && Handles(moved) == Handles(request) + 1 && OwnWrites(moved) == OwnWrites(request)
    case Some(Record(r, write)) =>
      && request.record == Some(r) && Handles(request) > 0 && !write.Abandon?
      && Handles(moved) == Handles(request) && OwnWrites(moved) == OwnWrites(request) + [write]
    case Some(Release(r)) =>
      && request.record == Some(r) && Handles(request) > 0
      && Handles(moved) == Handles(request) - 1 && OwnWrites(moved) == OwnWrites(request)
    case Some(FinishDrop(_)) => false
  }

  predicate InHandler(move: Move) {
    || move.HandlerBegins? || move.HandlerClones? || move.HandlerBorrows? || move.HandlerDelivers?
    || move.HandlerAnswers? || move.NoteAnswer? || move.HandlerReleases? || move.HandlerEnds?
  }

  lemma HandlerHoldings(request: Request, move: Move, next: nat, pc: Protocol.TicketPc, exiting: bool)
    requires ShapeFits(request) && Ready(request, move) && InHandler(move)
    ensures HoldingsFollow(request, move, Moved(request, move, next, pc, exiting))
  {
    hide EndingFits, AnswerIsFirst, AnswerFits;
    assert request.handlerWrites + [] == request.handlerWrites;
  }

  predicate AtTheEnd(move: Move) {
    move.EndTicket? || move.RecordOutcome? || move.ReleaseOwn? || move.SubmitterReleases?
  }

  lemma StartHoldings(request: Request, move: Move, next: nat, pc: Protocol.TicketPc, exiting: bool)
    requires PlacesFit(request) && StagesFit(request) && Ready(request, move) && !InHandler(move) && !AtTheEnd(move)
    requires move.AdmitTurn? && request.serial.Some? ==> pc != Protocol.Fresh
    ensures HoldingsFollow(request, move, Moved(request, move, next, pc, exiting))
  {
    hide SpawnRefusal, EndingFits, AnswerFits, CompletedWrites;
  }

  lemma EndHoldings(request: Request, move: Move, next: nat, pc: Protocol.TicketPc, exiting: bool)
    requires PlacesFit(request) && StagesFit(request) && Ready(request, move) && AtTheEnd(move)
    ensures HoldingsFollow(request, move, Moved(request, move, next, pc, exiting))
  {
    hide SpawnRefusal, ThreadOutcome, EndingFits, AnswerFits, StagesFit;
    assert request.handlerWrites + [] == request.handlerWrites;
  }

  lemma MovedHoldings(request: Request, move: Move, next: nat, pc: Protocol.TicketPc, exiting: bool)
    requires ShapeFits(request) && Ready(request, move)
    requires move.AdmitTurn? && request.serial.Some? ==> pc != Protocol.Fresh
    ensures HoldingsFollow(request, move, Moved(request, move, next, pc, exiting))
  {
    hide HoldingsFollow, Moved, Ready, PlacesFit, StagesFit, AnswerIsFirst;
    if InHandler(move) {
      HandlerHoldings(request, move, next, pc, exiting);
    } else {
      hide AtTheEnd;
      if AtTheEnd(move) {
        EndHoldings(request, move, next, pc, exiting);
      } else {
        StartHoldings(request, move, next, pc, exiting);
      }
    }
  }

  /** A store's move of a request is on the request's own record. */
  lemma MovesOwnRecord(request: Request, move: Move)
    requires ShapeFits(request) && Ready(request, move)
    ensures match StoreMoveOf(request, move)
            case Some(Clone(q)) => request.record == Some(q)
            case Some(Record(q, _)) => request.record == Some(q)
            case Some(Release(q)) => request.record == Some(q)
            case Some(FinishDrop(_)) => false
            case _ => true
  {
    hide Moved, Ready, Handles, OwnWrites, ShapeFits, StoreMoveOf;
    MovedHoldings(request, move, 0, Protocol.Checking, false);
  }

  lemma OwnRecordFits(store: Store.Store, request: Request, move: Move, pc: Protocol.TicketPc, exiting: bool)
    requires ShapeFits(request) && RecordFits(store.records, request) && Ready(request, move)
    requires StoreMoveOf(request, move).Some? ==> Store.Enabled(store, StoreMoveOf(request, move).value)
    requires move.AdmitTurn? && request.serial.Some? ==> pc != Protocol.Fresh
    ensures
      var store' :=
        if StoreMoveOf(request, move).Some? then Store.Apply(store, StoreMoveOf(request, move).value) else store;
      RecordFits(store'.records, Moved(request, move, |store.records|, pc, exiting))
  {
    MovedHoldings(request, move, |store.records|, pc, exiting);
    MovedKeepsIdentity(request, move, |store.records|, pc, exiting);
  }

  /** A request's readiness is all its ticket and its recorders need: no duty of its threads ever fails. */
  lemma ReadyIsEnabled(w: World, k: nat, move: Move)
    requires Coupled(w) && k in w.requests && Ready(w.requests[k], move)
    requires !move.BeginRecord? && !move.HandlerBegins?
    requires move.AdmitTurn? ==> TicketPcOf(w.host, w.requests[k]) != Protocol.Asleep
    ensures TakeEnabled(w, k, move)
  {
    var request := w.requests[k];
    assert ShapeFits(request) && TicketFits(w.host.tickets, request) && RecordFits(w.store.records, request);
    hide ShapeFits, TicketFits, RecordFits, Ready, AllFit, Apart, HostRuns.Invariant;
    ReadyTicketIsEnabled(w.host, request, move);
    ReadyRecordIsEnabled(w.store, request, move);
  }

  lemma ReadyTicketIsEnabled(s: Protocol.System, request: Request, move: Move)
    requires ShapeFits(request) && TicketFits(s.tickets, request) && Ready(request, move)
    requires move.AdmitTurn? ==> TicketPcOf(s, request) != Protocol.Asleep
    ensures HostStepOf(request, move).Some? ==> Protocol.Enabled(s, HostStepOf(request, move).value)
  {
  }

  lemma ReadyRecordIsEnabled(store: Store.Store, request: Request, move: Move)
    requires ShapeFits(request) && RecordFits(store.records, request) && Ready(request, move)
    requires !move.BeginRecord? && !move.HandlerBegins?
    ensures StoreMoveOf(request, move).Some? ==> Store.Enabled(store, StoreMoveOf(request, move).value)
  {
    MovedHoldings(request, move, 0, Protocol.Checking, false);
  }

  /** The store's move leaves every other record as it was. */
  lemma OtherRecordFits(store: Store.Store, move: Store.Move, other: Request, r: nat)
    requires Store.Enabled(store, move) && RecordFits(store.records, other) && other.record != Some(r)
    requires match move
             case Begin(_) => true
             case Clone(q) => q == r
             case Record(q, _) => q == r
             case Release(q) => q == r
             case FinishDrop(q) => q == r
    ensures RecordFits(Store.Apply(store, move).records, other)
  {
  }

  lemma FinishedDropFits(store: Store.Store, r: nat, request: Request)
    requires Store.Enabled(store, Store.FinishDrop(r)) && RecordFits(store.records, request)
    requires Store.StoreFits(store)
    ensures RecordFits(Store.Apply(store, Store.FinishDrop(r)).records, request)
  {
    assert Store.HeldFits(store.records[r]);
  }

  // ----- Every action keeps the coupling -----

  lemma HostStepKeeps(s: Protocol.System, step: Option<Protocol.Step>)
    requires HostRuns.Invariant(s) && (step.Some? ==> Protocol.Enabled(s, step.value))
    ensures HostRuns.Invariant(Stepped(s, step))
  {
    if step.Some? {
      HostRuns.StepKeepsInvariant(s, step.value);
    }
  }

  lemma TakeKeepsOthers(w: World, k: nat, move: Move, other: Request)
    requires Coupled(w) && TakeEnabled(w, k, move)
    requires TicketFits(w.host.tickets, other) && RecordFits(w.store.records, other)
    requires other.serial.Some? ==> other.serial != w.requests[k].serial
    requires other.record.Some? ==> other.record != w.requests[k].record
    ensures TicketFits(AfterTake(w, k, move).host.tickets, other)
    ensures RecordFits(AfterTake(w, k, move).store.records, other)
  {
    hide HostRuns.Invariant, Store.StoreFits, Apart, Handles, OwnWrites, PcMatches, Ready, PlacesFit, StagesFit,
      AnswerIsFirst;
    InvariantNumbersTickets(w.host);
    var request := w.requests[k];
    assert ShapeFits(request);
    if HostStepOf(request, move).Some? {
      TicketMoveIsSteady(w.host, request.serial.value, TicketMoveOf(request, move).value);
      SteadyTicketFits(w.host.tickets, AfterTake(w, k, move).host.tickets, request.serial, other);
    }
    if StoreMoveOf(request, move).Some? {
      MovesOwnRecord(request, move);
      OtherRecordFits(w.store, StoreMoveOf(request, move).value, other, request.record.GetOr(|w.store.records|));
    }
  }

  lemma TakeKeepsApart(w: World, k: nat, move: Move)
    requires Apart(w.requests) && AllFit(w) && TakeEnabled(w, k, move)
    ensures Apart(AfterTake(w, k, move).requests)
  {
    hide Ready, Handles, OwnWrites, ShapeFits, TicketFits, Moved, Apart;
    var w' := AfterTake(w, k, move);
    MovedKeepsIdentity(w.requests[k], move, |w.store.records|, TicketPcOf(w'.host, w.requests[k]), w.host.host.exiting);
    forall j | j in w.requests && w.requests[j].record.Some? ensures w.requests[j].record.value < |w.store.records| {
      assert RecordFits(w.store.records, w.requests[j]);
    }
    StaysApart(w.requests, k, w'.requests[k], |w.store.records|);
  }

  lemma StaysApart(requests: map<nat, Request>, k: nat, moved: Request, next: nat)
    requires Apart(requests) && k in requests && moved.serial == requests[k].serial
    requires moved.record == requests[k].record || moved.record == Some(next)
    requires forall j :: j in requests && requests[j].record.Some? ==> requests[j].record.value < next
    ensures Apart(requests[k := moved])
  {
  }

  lemma TakeKeepsOwn(w: World, k: nat, move: Move)
    requires Coupled(w) && TakeEnabled(w, k, move)
    ensures
      var w' := AfterTake(w, k, move);
      && ShapeFits(w'.requests[k]) && TicketFits(w'.host.tickets, w'.requests[k])
      && RecordFits(w'.store.records, w'.requests[k])
  {
    var request := w.requests[k];
    assert ShapeFits(request) && TicketFits(w.host.tickets, request) && RecordFits(w.store.records, request);
    var host := Stepped(w.host, HostStepOf(request, move));
    ShapeStays(request, move, |w.store.records|, TicketPcOf(host, request), w.host.host.exiting);
    OwnTicketFits(w.host, request, move, w.host.host.exiting, |w.store.records|);
    OwnRecordFits(w.store, request, move, TicketPcOf(host, request), w.host.host.exiting);
  }

  lemma TakeKeepsCoupling(w: World, k: nat, move: Move)
    requires Coupled(w) && TakeEnabled(w, k, move)
    ensures Coupled(AfterTake(w, k, move))
  {
    hide ShapeFits, TicketFits, RecordFits, Ready, HostRuns.Invariant, Store.StoreFits;
    var w' := AfterTake(w, k, move);
    HostStepKeeps(w.host, HostStepOf(w.requests[k], move));
    if StoreMoveOf(w.requests[k], move).Some? {
      Store.MoveKeepsStore(w.store, StoreMoveOf(w.requests[k], move).value);
    }
    TakeKeepsApart(w, k, move);
    TakeKeepsOwn(w, k, move);
    forall j | j in w'.requests && j != k
      ensures ShapeFits(w'.requests[j]) && TicketFits(w'.host.tickets, w'.requests[j])
      ensures RecordFits(w'.store.records, w'.requests[j])
    {
      assert ShapeFits(w.requests[j]);
      TakeKeepsOthers(w, k, move, w.requests[j]);
    }
  }

  /** The host as an arriving request leaves it: a fresh ticket, if it is a network operation. */
  lemma ArrivalIssuesTicket(s: Protocol.System, id: string, network: Option<Option<Host.Canceller>>)
    requires HostLedger.Issued(s.host.registered, s.tickets)
    requires network.Some? ==> Protocol.Enabled(s, Protocol.Register(id, network.value))
    ensures
      var serial := s.host.registered + 1;
      var t := Stepped(s, if network.Some? then Some(Protocol.Register(id, network.value)) else None);
      && serial !in s.tickets
      && t.tickets == if network.Some? then s.tickets[serial := Protocol.Ticket(id, false, false, Protocol.Fresh)]
                      else s.tickets
  {
  }

  lemma ArrivalFits(w: World, action: Action)
    requires action.Arrive? && Enabled(w, action) && HostLedger.Issued(w.host.host.registered, w.host.tickets)
    ensures
      var w' := AfterArrive(w, action);
      && ShapeFits(w'.requests[action.k]) && TicketFits(w'.host.tickets, w'.requests[action.k])
      && RecordFits(w'.store.records, w'.requests[action.k])
  {
    ArrivalIssuesTicket(w.host, action.id, action.network);
  }

  lemma ArrivalIsApart(w: World, action: Action)
    requires Apart(w.requests) && AllFit(w) && action.Arrive? && Enabled(w, action)
    requires HostLedger.Issued(w.host.host.registered, w.host.tickets)
    ensures Apart(AfterArrive(w, action).requests)
  {
    ArrivalIssuesTicket(w.host, action.id, action.network);
    forall j | j in w.requests ensures w.requests[j].serial != Some(w.host.host.registered + 1) {
      assert TicketFits(w.host.tickets, w.requests[j]);
    }
  }

  lemma ArrivalKeepsOthers(w: World, action: Action)
    requires AllFit(w) && action.Arrive? && Enabled(w, action)
    requires HostLedger.PcsFit(w.host.tickets) && HostLedger.Issued(w.host.host.registered, w.host.tickets)
    ensures
      var w' := AfterArrive(w, action);
      forall j :: j in w.requests ==>
        && ShapeFits(w.requests[j]) && TicketFits(w'.host.tickets, w.requests[j])
        && RecordFits(w'.store.records, w.requests[j])
  {
    var w' := AfterArrive(w, action);
    ArrivalIssuesTicket(w.host, action.id, action.network);
    assert SteadyExcept(w.host.tickets, w'.host.tickets, None);
    forall j | j in w.requests
      ensures ShapeFits(w.requests[j]) && TicketFits(w'.host.tickets, w.requests[j])
      ensures RecordFits(w'.store.records, w.requests[j])
    {
      SteadyTicketFits(w.host.tickets, w'.host.tickets, None, w.requests[j]);
    }
  }

  lemma InvariantNumbersTickets(s: Protocol.System)
    requires HostRuns.Invariant(s)
    ensures HostLedger.Issued(s.host.registered, s.tickets) && HostLedger.PcsFit(s.tickets)
  {
  }

  lemma ArriveKeepsCoupling(w: World, action: Action)
    requires Coupled(w) && action.Arrive? && Enabled(w, action)
    ensures Coupled(AfterArrive(w, action))
  {
    hide ShapeFits, TicketFits, RecordFits, Apart, Store.StoreFits, HostRuns.Invariant;
    InvariantNumbersTickets(w.host);
    HostStepKeeps(
      w.host, if action.network.Some? then Some(Protocol.Register(action.id, action.network.value)) else None);
    ArrivalFits(w, action);
    ArrivalIsApart(w, action);
    ArrivalKeepsOthers(w, action);
  }

  lemma HostAloneKeepsCoupling(w: World, step: Protocol.Step)
    requires Coupled(w) && HostsOwn(w.host, step) && Protocol.Enabled(w.host, step)
    ensures Coupled(w.(host := Protocol.Apply(w.host, step)))
  {
    HostRuns.StepKeepsInvariant(w.host, step);
    HostsOwnIsSteady(w.host, step);
    forall j | j in w.requests
      ensures TicketFits(Protocol.Apply(w.host, step).tickets, w.requests[j])
      ensures ShapeFits(w.requests[j]) && RecordFits(w.store.records, w.requests[j])
    {
      assert ShapeFits(w.requests[j]) && TicketFits(w.host.tickets, w.requests[j]);
      assert RecordFits(w.store.records, w.requests[j]);
      SteadyTicketFits(w.host.tickets, Protocol.Apply(w.host, step).tickets, None, w.requests[j]);
    }
  }

  lemma StoreAloneKeepsCoupling(w: World, r: nat)
    requires Coupled(w) && Store.Enabled(w.store, Store.FinishDrop(r))
    ensures Coupled(w.(store := Store.Apply(w.store, Store.FinishDrop(r))))
  {
    Store.MoveKeepsStore(w.store, Store.FinishDrop(r));
    forall j | j in w.requests
      ensures ShapeFits(w.requests[j]) && TicketFits(w.host.tickets, w.requests[j])
      ensures RecordFits(Store.Apply(w.store, Store.FinishDrop(r)).records, w.requests[j])
    {
      assert ShapeFits(w.requests[j]) && TicketFits(w.host.tickets, w.requests[j]);
      assert RecordFits(w.store.records, w.requests[j]);
      FinishedDropFits(w.store, r, w.requests[j]);
    }
  }

  lemma ActionKeepsCoupling(w: World, action: Action)
    requires Coupled(w) && Enabled(w, action)
    ensures Coupled(Submissions.Apply(w, action))
  {
    hide Coupled;
    match action
    case Arrive(_, _, _, _, _, _) => ArriveKeepsCoupling(w, action);
    case Take(k, move) => TakeKeepsCoupling(w, k, move);
    case StoreAlone(r) => StoreAloneKeepsCoupling(w, r);
    case HostAlone(step) => HostAloneKeepsCoupling(w, step);
  }
}
