/** What every run of requests, cancels and closes guarantees of each request. */
module RequestRuns {
  import opened Wrappers
  import opened RecordState
  import opened Submissions
  import opened Settlement
  import Host = HostState
  import Protocol = HostProtocol
  import HostLedger
  import HostRuns
  import HostTurns
  import Store = RecordStore

  lemma NextIsCoupled(w: World, after: World)
    requires Coupled(w) && Next(w, after)
    ensures Coupled(after)
  {
    var action :| Submissions.Enabled(w, action) && after == Submissions.Apply(w, action);
    ActionKeepsCoupling(w, action);
  }

  lemma StartIsCoupled()
    ensures Coupled(START)
  {
    HostRuns.InitIsInvariant();
  }

  lemma {:induction false} RunIsCoupled(run: seq<World>, i: nat)
    requires Run(run) && i < |run|
    ensures Coupled(run[i])
  {
    hide Coupled, Next;
    if i == 0 {
      StartIsCoupled();
    } else {
      RunIsCoupled(run, i - 1);
      assert Follows(run, i);
      NextIsCoupled(run[i - 1], run[i]);
    }
  }

  // ----- The two machines inside the run -----

  lemma HostReachesNext(s: Protocol.System, t: Protocol.System)
    requires Protocol.Reachable(s) && (t == s || Protocol.Next(s, t))
    ensures Protocol.Reachable(t)
  {
    if t != s {
      var run :| Protocol.Run(run) && run[|run| - 1] == s;
      var longer := run + [t];
      forall i | 0 < i < |longer| ensures Protocol.Follows(longer, i) {
        if i < |run| {
          assert Protocol.Follows(run, i);
        }
      }
      assert Protocol.Run(longer) && longer[|longer| - 1] == t;
    }
  }

  lemma StoreReachesNext(run: seq<Store.Store>, after: Store.Store) returns (longer: seq<Store.Store>)
    requires Store.Run(run) && (after == run[|run| - 1] || Store.Next(run[|run| - 1], after))
    ensures Store.Run(longer) && longer[|longer| - 1] == after
  {
    if after == run[|run| - 1] {
      longer := run;
    } else {
      longer := run + [after];
      forall i | 0 < i < |longer| ensures Store.Follows(longer, i) {
        if i < |run| {
          assert Store.Follows(run, i);
        }
      }
    }
  }

  lemma ActionMovesComponents(w: World, action: Action)
    requires Submissions.Enabled(w, action)
    ensures
      var after := Submissions.Apply(w, action);
      && (after.host == w.host || Protocol.Next(w.host, after.host))
      && (after.store == w.store || Store.Next(w.store, after.store))
  {
    match action
    case Arrive(_, _, id, _, _, network) =>
      if network.Some? {
        assert Protocol.Enabled(w.host, Protocol.Register(id, network.value));
      }
    case Take(k, move) =>
      var request := w.requests[k];
      if HostStepOf(request, move).Some? {
        assert Protocol.Enabled(w.host, HostStepOf(request, move).value);
      }
      if StoreMoveOf(request, move).Some? {
        assert Store.Enabled(w.store, StoreMoveOf(request, move).value);
      }
    case StoreAlone(r) => assert Store.Enabled(w.store, Store.FinishDrop(r));
    case HostAlone(step) => assert Protocol.Enabled(w.host, step);
  }

  lemma NextRefines(w: World, after: World, stores: seq<Store.Store>) returns (longer: seq<Store.Store>)
    requires Next(w, after) && Protocol.Reachable(w.host) && Store.Run(stores) && stores[|stores| - 1] == w.store
    ensures Protocol.Reachable(after.host)
    ensures Store.Run(longer) && longer[|longer| - 1] == after.store
  {
    hide Protocol.Reachable, Store.Run;
    var action :| Submissions.Enabled(w, action) && after == Submissions.Apply(w, action);
    ActionMovesComponents(w, action);
    HostReachesNext(w.host, after.host);
    longer := StoreReachesNext(stores, after.store);
  }

  lemma StartRefines() returns (stores: seq<Store.Store>)
    ensures Protocol.Reachable(START.host)
    ensures Store.Run(stores) && stores[|stores| - 1] == START.store
  {
    assert Protocol.Run([Protocol.INIT]) && [Protocol.INIT][0] == START.host;
    stores := [Store.EMPTY];
  }

  /** Every run of requests is a run of the host and a run of the record store, so their theorems hold of it. */
  lemma {:induction false} RunsRefineBothMachines(run: seq<World>, i: nat) returns (stores: seq<Store.Store>)
    requires Run(run) && i < |run|
    ensures Protocol.Reachable(run[i].host)
    ensures Store.Run(stores) && stores[|stores| - 1] == run[i].store
  {
    hide Protocol.Reachable, Store.Follows, Next;
    if i == 0 {
      stores := StartRefines();
    } else {
      stores := RunsRefineBothMachines(run, i - 1);
      assert Follows(run, i);
      stores := NextRefines(run[i - 1], run[i], stores);
    }
  }

  // ----- Settling -----

  /** The outcome a path calls for when its handler recorded none. */
  function PathOutcome(request: Request): Outcome {
    match request.pc
    case Over(SpawnError(message)) => Refused(SpawnRefusal(message))
    case Over(Completed(end)) =>
      if request.kind != Submit then Refused(ABANDONED)
      else (
        match ThreadOutcome(end)
        case Ran => Refused(ABANDONED)
        case RanFailed(message) =>
          Finished(FailureResult(request.id, request.meta.requestId, request.action, message), None)
        case WasRefused(error) => Finished(ModelErrorResult(request.id, request.meta, request.action, error), None)
        case Unwound =>
          Finished(FailureResult(request.id, request.meta.requestId, request.action,
                                 "RuntimeError: native operation panicked"), None))
    case _ => Refused(ABANDONED)
  }

  /** The first outcome the handler recorded, and otherwise the one its path calls for. */
  function SettledOutcome(request: Request): Outcome {
    FirstTerminal(request.id, request.handlerWrites).GetOr(PathOutcome(request))
  }

  lemma SettledWrites(request: Request)
    requires ShapeFits(request) && request.pc.Over?
    ensures FirstTerminal(request.id, OwnWrites(request) + [Abandon]) == Some(SettledOutcome(request))
    ensures FirstTerminal(request.id, OwnWrites(request)).Some? ==>
              FirstTerminal(request.id, OwnWrites(request)) == Some(SettledOutcome(request))
  {
    FirstTerminalOfAppended(request.id, OwnWrites(request), [Abandon]);
    if request.pc.exit.Completed? && request.kind == Submit {
      var writes := OutcomeWrites(request, request.pc.exit.end);
      FirstTerminalOfAppended(request.id, request.handlerWrites, writes);
    } else if request.pc.exit.Completed? {
      assert request.handlerWrites + [] == request.handlerWrites;
    }
  }

  /** What a thread that ends with no outcome of its handler's leaves for the readers, ending by ending. */
  lemma EndingsSettle(request: Request, cleanup: Option<Host.Cleanup>, next: nat, pc: Protocol.TicketPc, exiting: bool)
    requires request.kind == Submit && FirstTerminal(request.id, request.handlerWrites).None?
    requires Ready(request, EndTicket(cleanup))
    ensures
      var moved := Moved(request, EndTicket(cleanup), next, pc, exiting);
      var failed := (code: ErrorCode, message: string, attribution: Option<nat>, transport: Option<nat>) =>
        Finished(OperationResult(request.id, request.meta.requestId, request.action, Failed, [],
                                 [GwzError(code, message)], attribution, transport), None);
      && moved.pc.Recording?
      && var settled := SettledOutcome(moved.(pc := Over(Completed(moved.pc.end))));
         match request.pc.ending
         case Unadmitted =>
           settled == failed(Cancelled, "the network operation was cancelled before it started",
                             request.meta.attribution, None)
         case EntryFailed(error) =>
           settled == failed(error.code, error.message, request.meta.attribution, error.transport)
         case HandlerFailed(message) =>
           settled ==
           if request.serial.Some? && exiting
           then failed(InternalError, "the operation failed after its client closed at interpreter exit",
                       request.meta.attribution, None)
           else failed(InternalError, message, None, None)
         case HandlerPanicked => settled == failed(InternalError, "RuntimeError: native operation panicked", None, None)
         case HandlerSucceeded =>
           settled == Refused(ModelError(InternalError, "the operation ended without recording its outcome", None))
  {
  }

  /** The ticket has ended: its slot and its ID in the host are free. */
  predicate TicketSettled(s: Protocol.System, request: Request) {
    request.serial.Some? ==>
      && request.serial.value in s.tickets && s.tickets[request.serial.value].ended
      && !Host.IsLive(s.host, request.id, request.serial.value)
  }

  /** The record has its one outcome, unless the drop of its last recorder is still to come; the ID is then free. */
  predicate RecordSettled(store: Store.Store, request: Request) {
    request.record.Some? ==>
      && request.record.value < |store.records|
      && var held := store.records[request.record.value];
         && held.handles == 0
         && (held.dropping ==> Store.Enabled(store, Store.FinishDrop(request.record.value)))
         && (!held.dropping ==>
               && OutcomeOf(held.record) == Some(SettledOutcome(request))
               && (request.id in store.current && store.current[request.id] == request.record.value ==>
                     Store.MayBegin(store, request.id)))
  }

  /**
    A request that is over has ended its ticket, and so freed its slot and its ID in
    the host; its record, once the last recorder's drop is done, has ended with the
    settled outcome, which frees the ID there too.
  */
  lemma EveryRequestSettles(run: seq<World>, i: nat, k: nat)
    requires Run(run) && i < |run| && k in run[i].requests
    requires run[i].requests[k].pc.Over? && !run[i].requests[k].submitterHolds
    ensures TicketSettled(run[i].host, run[i].requests[k]) && RecordSettled(run[i].store, run[i].requests[k])
  {
    hide Coupled, Run;
    var w := run[i];
    RunIsCoupled(run, i);
    CoupledRequest(w, k);
    var request := w.requests[k];
    if request.serial.Some? {
      EndedTicketIsNotLive(w.host, request.serial.value);
    }
    if request.record.Some? {
      SettledRecord(w.store, request);
    }
  }

  lemma CoupledRequest(w: World, k: nat)
    requires Coupled(w) && k in w.requests
    ensures ShapeFits(w.requests[k])
    ensures TicketFits(w.host.tickets, w.requests[k]) && RecordFits(w.store.records, w.requests[k])
    ensures w.requests[k].record.Some? ==> Store.HeldFits(w.store.records[w.requests[k].record.value])
    ensures HostLedger.Ledger(w.host)
  {
  }

  lemma EndedTicketIsNotLive(s: Protocol.System, serial: nat)
    requires HostLedger.Ledger(s) && serial in s.tickets && s.tickets[serial].ended
    ensures !Host.IsLive(s.host, s.tickets[serial].id, serial)
  {
    assert Host.IsLive(s.host, s.tickets[serial].id, serial) ==>
           HostLedger.Owned(s.tickets, s.tickets[serial].id, serial);
  }

  /** What a record holds, told from its request: its recorders' writes, and perhaps the abandonment. */
  lemma HeldOutcome(records: seq<Store.Held>, request: Request)
    requires ShapeFits(request) && RecordFits(records, request)
    requires request.record.Some? && Store.HeldFits(records[request.record.value])
    ensures
      var held := records[request.record.value];
      var own := FirstTerminal(request.id, OwnWrites(request));
      && (own.Some? ==> OutcomeOf(held.record) == own)
      && (held.handles == 0 && !held.dropping ==>
            OutcomeOf(held.record) == FirstTerminal(request.id, OwnWrites(request) + [Abandon]))
  {
    FirstTerminalOfAppended(request.id, OwnWrites(request), [Abandon]);
    OutcomeIsFirstTerminal(request.id, records[request.record.value].writes);
  }

  lemma SettledRecord(store: Store.Store, request: Request)
    requires ShapeFits(request) && RecordFits(store.records, request)
    requires request.pc.Over? && !request.submitterHolds && request.record.Some?
    requires Store.HeldFits(store.records[request.record.value])
    ensures RecordSettled(store, request)
  {
    SettledWrites(request);
    HeldOutcome(store.records, request);
  }

  lemma RefusedSpawnWrites(request: Request, message: string)
    requires request.pc == SpawnRefused(message) || request.pc == Over(SpawnError(message))
    ensures FirstTerminal(request.id, OwnWrites(request)) == Some(Refused(SpawnRefusal(message)))
  {
  }

  /** A failed spawn leaves the I/O refusal in the record, not the abandoned-record error. */
  lemma SpawnFailureIsRetained(run: seq<World>, i: nat, k: nat, message: string)
    requires Run(run) && i < |run| && k in run[i].requests
    requires run[i].requests[k].pc == SpawnRefused(message) || run[i].requests[k].pc == Over(SpawnError(message))
    ensures
      var request := run[i].requests[k];
      && request.record.Some? && request.record.value < |run[i].store.records|
      && OutcomeOf(run[i].store.records[request.record.value].record) ==
         Some(Refused(ModelError(IoError, "native worker unavailable: " + message, None)))
  {
    hide Coupled, Run;
    RunIsCoupled(run, i);
    CoupledRequest(run[i], k);
    RefusedSpawnWrites(run[i].requests[k], message);
    HeldOutcome(run[i].store.records, run[i].requests[k]);
  }

  /** Once a handler has recorded an outcome, a panic, a failure or a drop after it does not replace it. */
  lemma HandlerOutcomeStands(run: seq<World>, i: nat, k: nat)
    requires Run(run) && i < |run| && k in run[i].requests && run[i].requests[k].record.Some?
    requires FirstTerminal(run[i].requests[k].id, run[i].requests[k].handlerWrites).Some?
    ensures
      var request, records := run[i].requests[k], run[i].store.records;
      && request.record.value < |records|
      && OutcomeOf(records[request.record.value].record) == FirstTerminal(request.id, request.handlerWrites)
  {
    hide Coupled, Run;
    var w := run[i];
    RunIsCoupled(run, i);
    CoupledRequest(w, k);
    var request := w.requests[k];
    OwnWritesExtendHandlers(request);
    FirstTerminalOfAppended(request.id, request.handlerWrites, OwnWrites(request)[|request.handlerWrites|..]);
    HeldOutcome(w.store.records, request);
  }

  lemma OwnWritesExtendHandlers(request: Request)
    requires ShapeFits(request)
    ensures request.handlerWrites <= OwnWrites(request)
    ensures OwnWrites(request) == request.handlerWrites + OwnWrites(request)[|request.handlerWrites|..]
  {
  }

  /**
    Nothing a request's threads must do can fail them: the ticket they end has not
    ended, and the recorder they write through or drop is still theirs.
  */
  lemma NoDutyFails(run: seq<World>, i: nat, k: nat, move: Move)
    requires Run(run) && i < |run| && k in run[i].requests && Ready(run[i].requests[k], move)
    requires !move.BeginRecord? && !move.HandlerBegins?
    requires move.AdmitTurn? ==> TicketPcOf(run[i].host, run[i].requests[k]) != Protocol.Asleep
    ensures TakeEnabled(run[i], k, move)
  {
    hide Coupled, Run;
    RunIsCoupled(run, i);
    ReadyIsEnabled(run[i], k, move);
  }

  // ----- Arriving -----

  /** A network request arrives with its own registration, under its ID and with its canceller; others with none. */
  lemma ArrivalRegisters(w: World, action: Action)
    requires action.Arrive? && Submissions.Enabled(w, action)
    ensures
      var after := Submissions.Apply(w, action);
      var request := after.requests[action.k];
      && after.requests == w.requests[action.k := request] && after.store == w.store
      && request.kind == action.kind && request.id == action.id && request.meta == action.meta
      && request.action == action.action && request.record.None? && request.handlerWrites == []
      && (action.network.None? ==> request.serial.None? && after.host == w.host)
      && (action.network.Some? ==>
            && request.serial == Some(after.host.host.registered)
            && after.host.host.live ==
               w.host.host.live[action.id := Host.Live(request.serial.value, false, false, action.network.value)])
  {
  }

  // ----- Nobody is stuck -----

  /** A move that leads a request on to its end, if need be by failing. */
  function WayOut(request: Request): Move {
    match request.pc
    case Registered => GiveUp
    case Begun => FailEncoding
    case Spawning => SpawnOk
    case DroppingClosure(_) => ReleaseOwn
    case DroppingClosureTicket(_) => DropTicket
    case RefusingSpawn(_) => RefuseSpawn
    case SpawnRefused(_) => ReleaseOwn
    case Unwinding(_) => ReleaseOwn
    case UnwindingTicket(_) => DropTicket
    case Waiting => AdmitTurn
    case Handling =>
      (match request.stage
       case Idle => HandlerEnds(HandlerFailed(""))
       case Reporting => HandlerAnswers(Declined(ABANDONED))
       case Answered(_) => NoteAnswer
       case Noted(_) => if request.handlerHolds then HandlerReleases else HandlerEnds(HandlerFailed(""))
       case Crashed => HandlerEnds(HandlerPanicked))
    case EndingTicket(_) => EndTicket(None)
    case Recording(_) => RecordOutcome
    case Releasing(_) => ReleaseOwn
    case Over(_) => SubmitterReleases
  }

  /** How many of its own moves a request is at most from its end that way. */
  function Remaining(request: Request): nat {
    (match request.pc
     case Registered => 3
     case Begun => 4
     case Spawning => 12
     case DroppingClosure(_) => 5
     case DroppingClosureTicket(_) => 4
     case RefusingSpawn(_) => 3
     case SpawnRefused(_) => 2
     case Unwinding(_) => 2
     case UnwindingTicket(_) => 1
     case Waiting => 10
     case Handling =>
       (match request.stage
        case Idle => 9
        case Reporting => 8
        case Answered(_) => 7
        case Noted(_) => if request.handlerHolds then 6 else 5
        case Crashed => 5)
     case EndingTicket(_) => 4
     case Recording(_) => 2
     case Releasing(_) => 1
     case Over(_) => 0)
    + (if request.submitterHolds then 1 else 0)
  }

  lemma WayOutIsReady(request: Request)
    requires ShapeFits(request) && !(request.pc.Over? && !request.submitterHolds)
    ensures Ready(request, WayOut(request))
  {
  }

  lemma WayOutLeadsOn(request: Request, next: nat, pc: Protocol.TicketPc, exiting: bool)
    requires ShapeFits(request) && Ready(request, WayOut(request))
    requires request.pc.Waiting? && request.serial.Some? ==> pc == Protocol.Running || pc == Protocol.Refused
    ensures Remaining(Moved(request, WayOut(request), next, pc, exiting)) < Remaining(request)
  {
    hide EndingFits, AnswerIsFirst, AnswerFits;
  }

  /**
    A request can always be brought to its end: unless its ticket sleeps for want of a slot, there
    is a move its threads can make now that brings it nearer, or a turn of admission that puts it
    to sleep because eight operations run.
  */
  lemma NoRequestIsStuck(run: seq<World>, i: nat, k: nat)
    requires Run(run) && i < |run| && k in run[i].requests
    requires !(run[i].requests[k].pc.Over? && !run[i].requests[k].submitterHolds)
    requires TicketPcOf(run[i].host, run[i].requests[k]) != Protocol.Asleep
    ensures exists move :: TakeEnabled(run[i], k, move) && LeadsOn(run[i], k, move)
  {
    hide Run, Coupled, ShapeFits, Ready, Remaining, Moved, Submissions.Apply;
    var w, request := run[i], run[i].requests[k];
    RunIsCoupled(run, i);
    CoupledRequest(w, k);
    WayOutIsReady(request);
    NoDutyFails(run, i, k, WayOut(request));
    var stores := RunsRefineBothMachines(run, i);
    WayOutMoves(w, k);
  }

  /** The move brings the request nearer to its end, or to sleep behind eight running operations. */
  predicate LeadsOn(w: World, k: nat, move: Move)
    requires TakeEnabled(w, k, move)
  {
    var after := AfterTake(w, k, move);
    || Remaining(after.requests[k]) < Remaining(w.requests[k])
    || (TicketPcOf(after.host, after.requests[k]) == Protocol.Asleep && w.host.host.running == 8)
  }

  lemma WayOutMoves(w: World, k: nat)
    requires Coupled(w) && Protocol.Reachable(w.host) && k in w.requests
    requires TakeEnabled(w, k, WayOut(w.requests[k]))
    ensures LeadsOn(w, k, WayOut(w.requests[k]))
  {
    hide Ready, Moved, Remaining, Coupled, ShapeFits, RecordFits, TicketFits, StoreMoveOf, Protocol.Reachable;
    var request := w.requests[k];
    CoupledRequest(w, k);
    if request.pc.Waiting? && request.serial.Some? {
      TurnMoves(w, k);
    } else {
      var host := Stepped(w.host, HostStepOf(request, WayOut(request)));
      WayOutLeadsOn(request, |w.store.records|, TicketPcOf(host, request), w.host.host.exiting);
    }
  }

  lemma TurnMoves(w: World, k: nat)
    requires k in w.requests && ShapeFits(w.requests[k]) && Protocol.Reachable(w.host)
    requires w.requests[k].pc.Waiting? && w.requests[k].serial.Some? && TakeEnabled(w, k, AdmitTurn)
    ensures LeadsOn(w, k, AdmitTurn)
  {
    hide Remaining, ShapeFits, Moved, Protocol.Reachable, Protocol.AfterTicket, StoreMoveOf;
    var request := w.requests[k];
    HostTurns.AdmissionTurn(w.host, request.serial.value);
    TurnDecides(w.host, request.serial.value);
    var host := Stepped(w.host, HostStepOf(request, AdmitTurn));
    var pc := TicketPcOf(host, request);
    MovedKeepsIdentity(request, AdmitTurn, |w.store.records|, pc, w.host.host.exiting);
    if pc != Protocol.Asleep {
      WayOutLeadsOn(request, |w.store.records|, pc, w.host.host.exiting);
    }
  }

  lemma TurnDecides(s: Protocol.System, serial: nat)
    requires Protocol.TicketEnabled(s, serial, Protocol.Admit)
    ensures
      var after := Protocol.AfterTicket(s, serial, Protocol.Admit).tickets;
      serial in after &&
      var pc := after[serial].pc;
      pc == Protocol.Running || pc == Protocol.Refused || pc == Protocol.Asleep
  {
  }
}
