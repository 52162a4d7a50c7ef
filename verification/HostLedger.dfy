/**
  The ledger: in every reachable state the tickets, the registry of live
  operations, the slot count and the totals describe the same operations.
*/
module HostLedger {
  import opened Wrappers
  import opened HostState
  import opened HostProtocol

  // ----- What the ledger says -----

  predicate PcFits(ticket: Ticket) {
    match ticket.pc
    case Fresh | Checking | Asleep | Refused => !ticket.admitted && !ticket.ended
    case Running => ticket.admitted && !ticket.ended
    case Notifying | Finished | Dropped => ticket.ended
  }

  ghost predicate Holds(live: map<OperationId, Live>, serial: nat, ticket: Ticket) {
    ticket.id in live && live[ticket.id].serial == serial && live[ticket.id].running == ticket.admitted
  }

  ghost predicate Owned(tickets: map<nat, Ticket>, id: OperationId, serial: nat) {
    serial in tickets && !tickets[serial].ended && tickets[serial].id == id
  }

  /** Serial numbers are issued in order, one a ticket. */
  ghost predicate Issued(registered: nat, tickets: map<nat, Ticket>) {
    forall serial :: serial in tickets <==> 1 <= serial <= registered
  }

  ghost predicate PcsFit(tickets: map<nat, Ticket>) {
    forall serial :: serial in tickets ==> PcFits(tickets[serial])
  }

  /** Un-ended tickets and live entries correspond one to one, by ID and serial number. */
  ghost predicate Correspond(live: map<OperationId, Live>, tickets: map<nat, Ticket>) {
    && (forall serial :: serial in tickets && !tickets[serial].ended ==> Holds(live, serial, tickets[serial]))
    && (forall id :: id in live ==> Owned(tickets, id, live[id].serial))
  }

  /** The tickets that hold a slot. */
  ghost function Holders(tickets: map<nat, Ticket>): set<nat> {
    set serial | serial in tickets && tickets[serial].admitted && !tickets[serial].ended
  }

  ghost function RunningIds(live: map<OperationId, Live>): set<OperationId> {
    set id | id in live && live[id].running
  }

  ghost predicate SlotsCounted(running: int, live: map<OperationId, Live>, tickets: map<nat, Ticket>) {
    running == |Holders(tickets)| == |RunningIds(live)| && 0 <= running <= LIMIT
  }

  ghost function Serials(ended: seq<EndRecord>): set<nat> {
    set k | 0 <= k < |ended| :: ended[k].serial
  }

  ghost predicate DistinctSerials(ended: seq<EndRecord>) {
    forall i, j :: 0 <= i < j < |ended| ==> ended[i].serial != ended[j].serial
  }

  /** Each ended ticket ended exactly once, and as the history says. */
  ghost predicate HistoryFits(tickets: map<nat, Ticket>, ended: seq<EndRecord>) {
    && DistinctSerials(ended)
    && (forall k :: 0 <= k < |ended| ==>
          && ended[k].serial in tickets
          && tickets[ended[k].serial].ended
          && tickets[ended[k].serial].id == ended[k].id
          && tickets[ended[k].serial].admitted == ended[k].admitted)
    && (forall serial :: serial in tickets && tickets[serial].ended ==> serial in Serials(ended))
  }

  ghost function Totals(ended: seq<EndRecord>): Aggregate {
    if ended == [] then Aggregate(0, 0, 0)
    else
      var rest := Totals(ended[..|ended| - 1]);
      var cleanup := ended[|ended| - 1].cleanup;
      if cleanup.Some? then rest.Add(cleanup.value) else rest
  }

  predicate Reports(record: EndRecord) {
    record.cancelled && record.cleanup.Some?
  }

  /** The completed cancellations that left a report, oldest first. */
  ghost function Reported(ended: seq<EndRecord>): seq<(nat, Cleanup)> {
    if ended == [] then []
    else
      var last := ended[|ended| - 1];
      Reported(ended[..|ended| - 1]) + (if Reports(last) then [(last.serial, last.cleanup.value)] else [])
  }

  ghost predicate Accounted(host: Host, ended: seq<EndRecord>) {
    && host.aggregate == Totals(ended)
    && host.cancellations == Last(Reported(ended), RECORDED_CANCELLATIONS)
  }

  ghost predicate Ledger(s: System) {
    && Issued(s.host.registered, s.tickets)
    && PcsFit(s.tickets)
    && Correspond(s.host.live, s.tickets)
    && SlotsCounted(s.host.running, s.host.live, s.tickets)
    && |s.host.live| + |s.ended| == s.host.registered
    && HistoryFits(s.tickets, s.ended)
    && Accounted(s.host, s.ended)
  }

  // ----- Steps that leave the ledger alone -----

  ghost predicate OnlyCancelledMoved(live: map<OperationId, Live>, live': map<OperationId, Live>) {
    && live.Keys == live'.Keys
    && forall id :: id in live ==> live'[id] == live[id].(cancelled := live'[id].cancelled)
  }

  ghost predicate OnlyPcsMoved(tickets: map<nat, Ticket>, tickets': map<nat, Ticket>) {
    && tickets.Keys == tickets'.Keys
    && forall t :: t in tickets ==> tickets'[t] == tickets[t].(pc := tickets'[t].pc) && PcFits(tickets'[t])
  }

  /** No ticket was issued, admitted or ended. */
  ghost predicate Quiet(s: System, t: System) {
    && OnlyCancelledMoved(s.host.live, t.host.live)
    && OnlyPcsMoved(s.tickets, t.tickets)
    && t.host.running == s.host.running && t.host.registered == s.host.registered
    && t.host.aggregate == s.host.aggregate && t.host.cancellations == s.host.cancellations
    && t.ended == s.ended
  }

  lemma QuietKeepsSlots(live: map<OperationId, Live>, live': map<OperationId, Live>,
                        tickets: map<nat, Ticket>, tickets': map<nat, Ticket>)
    requires OnlyCancelledMoved(live, live') && OnlyPcsMoved(tickets, tickets')
    ensures Holders(tickets') == Holders(tickets)
    ensures RunningIds(live') == RunningIds(live)
    ensures |live'| == |live|
  {
    assert |live'| == |live'.Keys| == |live|;
  }

  lemma QuietKeepsCorrespondence(live: map<OperationId, Live>, live': map<OperationId, Live>,
                                 tickets: map<nat, Ticket>, tickets': map<nat, Ticket>)
    requires OnlyCancelledMoved(live, live') && OnlyPcsMoved(tickets, tickets')
    requires Correspond(live, tickets)
    ensures Correspond(live', tickets')
  {
  }

  lemma QuietKeepsHistory(tickets: map<nat, Ticket>, tickets': map<nat, Ticket>, ended: seq<EndRecord>)
    requires OnlyPcsMoved(tickets, tickets') && HistoryFits(tickets, ended)
    ensures HistoryFits(tickets', ended)
  {
  }

  lemma QuietKeepsLedger(s: System, t: System)
    requires Ledger(s) && Quiet(s, t)
    ensures Ledger(t)
  {
    QuietKeepsSlots(s.host.live, t.host.live, s.tickets, t.tickets);
    QuietKeepsCorrespondence(s.host.live, t.host.live, s.tickets, t.tickets);
    QuietKeepsHistory(s.tickets, t.tickets, s.ended);
  }

  // ----- The three steps that write it -----

  lemma RegisterKeepsLedger(s: System, id: OperationId, canceller: Option<Canceller>)
    requires Ledger(s) && HostState.Register(s.host, id, canceller).Registered?
    ensures Ledger(AfterRegister(s, id, HostState.Register(s.host, id, canceller).host))
  {
    var host := HostState.Register(s.host, id, canceller).host;
    var t := AfterRegister(s, id, host);
    NewEntryCorresponds(s.host.live, s.tickets, id, host.registered, canceller);
    NewEntryHoldsNoSlot(s.host.live, s.tickets, id, host.registered, canceller);
    NewTicketKeepsHistory(s.tickets, s.ended, host.registered, t.tickets[host.registered]);
  }

  lemma NewEntryCorresponds(live: map<OperationId, Live>, tickets: map<nat, Ticket>,
                            id: OperationId, serial: nat, canceller: Option<Canceller>)
    requires Correspond(live, tickets) && id !in live && serial !in tickets
    ensures Correspond(live[id := Live(serial, false, false, canceller)],
                       tickets[serial := Ticket(id, false, false, Fresh)])
  {
  }

  lemma NewEntryHoldsNoSlot(live: map<OperationId, Live>, tickets: map<nat, Ticket>,
                            id: OperationId, serial: nat, canceller: Option<Canceller>)
    requires id !in live && serial !in tickets
    ensures Holders(tickets[serial := Ticket(id, false, false, Fresh)]) == Holders(tickets)
    ensures
      var live' := live[id := Live(serial, false, false, canceller)];
      RunningIds(live') == RunningIds(live) && |live'| == |live| + 1
  {
    var live' := live[id := Live(serial, false, false, canceller)];
    assert live'.Keys == live.Keys + {id};
    assert |live'| == |live'.Keys| && |live| == |live.Keys|;
  }

  lemma NewTicketKeepsHistory(tickets: map<nat, Ticket>, ended: seq<EndRecord>, serial: nat, ticket: Ticket)
    requires HistoryFits(tickets, ended) && serial !in tickets && !ticket.ended
    ensures HistoryFits(tickets[serial := ticket], ended)
  {
  }

  lemma AdmitKeepsLedger(s: System, serial: nat)
    requires Ledger(s) && TicketAt(s, serial, {Fresh, Checking})
    ensures Ledger(AfterAdmit(s, serial))
  {
    var ticket := s.tickets[serial];
    assert PcFits(ticket);
    if TryAdmit(s.host, ticket.id, serial).Admitted? {
      AdmittedKeepsLedger(s, serial);
    } else {
      QuietTicketKeepsLedger(s, serial, AfterAdmit(s, serial).tickets[serial].pc);
    }
  }

  lemma ChangedTicketFits(registered: nat, tickets: map<nat, Ticket>, serial: nat, ticket: Ticket)
    requires Issued(registered, tickets) && PcsFit(tickets) && serial in tickets && PcFits(ticket)
    ensures Issued(registered, tickets[serial := ticket]) && PcsFit(tickets[serial := ticket])
  {
  }

  lemma QuietTicketKeepsLedger(s: System, serial: nat, pc: TicketPc)
    requires Ledger(s) && serial in s.tickets && PcFits(s.tickets[serial].(pc := pc))
    ensures Ledger(WithTicket(s, serial, s.tickets[serial].(pc := pc)))
  {
    var tickets' := s.tickets[serial := s.tickets[serial].(pc := pc)];
    assert OnlyPcsMoved(s.tickets, tickets');
    QuietKeepsLedger(s, WithTicket(s, serial, s.tickets[serial].(pc := pc)));
  }

  lemma AdmittedKeepsLedger(s: System, serial: nat)
    requires Ledger(s) && TicketAt(s, serial, {Fresh, Checking})
    requires TryAdmit(s.host, s.tickets[serial].id, serial).Admitted?
    ensures Ledger(AfterAdmit(s, serial))
  {
    hide Issued, PcsFit, Correspond, HistoryFits, Totals, Reported, Holders, RunningIds;
    var ticket := s.tickets[serial];
    var ticket' := ticket.(admitted := true, pc := Running);
    UnendedTicketHolds(s, serial);
    AdmittedCorresponds(s.host.live, s.tickets, serial);
    AdmittedTakesSlot(s.host.live, s.tickets, serial);
    ChangedTicketKeepsHistory(s.tickets, s.ended, serial, ticket');
    ChangedTicketFits(s.host.registered, s.tickets, serial, ticket');
  }

  lemma UnendedTicketHolds(s: System, serial: nat)
    requires Ledger(s) && TicketAt(s, serial, {Fresh, Checking, Refused, Running})
    ensures PcFits(s.tickets[serial]) && !s.tickets[serial].ended && Holds(s.host.live, serial, s.tickets[serial])
  {
    assert PcFits(s.tickets[serial]);
  }

  lemma AdmittedCorresponds(live: map<OperationId, Live>, tickets: map<nat, Ticket>, serial: nat)
    requires Correspond(live, tickets) && serial in tickets && !tickets[serial].ended
    ensures tickets[serial].id in live
    ensures
      var id := tickets[serial].id;
      Correspond(live[id := live[id].(running := true)],
                 tickets[serial := tickets[serial].(admitted := true, pc := Running)])
  {
    assert Holds(live, serial, tickets[serial]);
  }

  lemma AdmittedTakesSlot(live: map<OperationId, Live>, tickets: map<nat, Ticket>, serial: nat)
    requires serial in tickets && !tickets[serial].ended && !tickets[serial].admitted
    requires Holds(live, serial, tickets[serial])
    ensures
      var tickets' := tickets[serial := tickets[serial].(admitted := true, pc := Running)];
      |Holders(tickets')| == |Holders(tickets)| + 1
    ensures
      var id := tickets[serial].id;
      var live' := live[id := live[id].(running := true)];
      |RunningIds(live')| == |RunningIds(live)| + 1 && |live'| == |live|
  {
    var tickets' := tickets[serial := tickets[serial].(admitted := true, pc := Running)];
    var id := tickets[serial].id;
    var live' := live[id := live[id].(running := true)];
    assert Holders(tickets') == Holders(tickets) + {serial};
    assert RunningIds(live') == RunningIds(live) + {id};
    assert live'.Keys == live.Keys;
    assert |live'| == |live'.Keys| && |live| == |live.Keys|;
  }

  lemma ChangedTicketKeepsHistory(tickets: map<nat, Ticket>, ended: seq<EndRecord>, serial: nat, ticket: Ticket)
    requires HistoryFits(tickets, ended) && serial in tickets && !tickets[serial].ended && !ticket.ended
    ensures HistoryFits(tickets[serial := ticket], ended)
  {
  }

  lemma EndKeepsLedger(s: System, serial: nat, cleanup: Option<Cleanup>)
    requires Ledger(s) && TicketAt(s, serial, {Fresh, Refused, Running})
    ensures Ledger(AfterEnd(s, serial, cleanup))
  {
    hide Issued, PcsFit, Correspond, HistoryFits, Totals, Reported, Holders, RunningIds;
    var ticket := s.tickets[serial];
    UnendedTicketHolds(s, serial);
    EndedCorresponds(s.host.live, s.tickets, serial);
    EndedFreesSlot(s.host.live, s.tickets, serial);
    EndKeepsHistory(s.tickets, s.ended, serial,
                    EndRecord(serial, ticket.id, ticket.admitted, WasCancelled(s.host, ticket.id, serial), cleanup));
    ChangedTicketFits(s.host.registered, s.tickets, serial, EndedTicket(s.tickets, serial)[serial]);
    EndKeepsAccounts(s, serial, cleanup);
    var t := AfterEnd(s, serial, cleanup);
    assert t.tickets == EndedTicket(s.tickets, serial);
    assert t.host.live == s.host.live - {ticket.id};
  }

  function EndedTicket(tickets: map<nat, Ticket>, serial: nat): map<nat, Ticket>
    requires serial in tickets
  {
    tickets[serial := tickets[serial].(ended := true, pc := Notifying)]
  }

  lemma EndedCorresponds(live: map<OperationId, Live>, tickets: map<nat, Ticket>, serial: nat)
    requires Correspond(live, tickets) && serial in tickets && !tickets[serial].ended
    ensures Correspond(live - {tickets[serial].id}, EndedTicket(tickets, serial))
  {
    assert Holds(live, serial, tickets[serial]);
    var live' := live - {tickets[serial].id};
    forall other | other in tickets && !tickets[other].ended && other != serial
      ensures Holds(live', other, tickets[other])
    {
      assert Holds(live, other, tickets[other]);
    }
    forall id | id in live' ensures Owned(EndedTicket(tickets, serial), id, live'[id].serial) {
      assert Owned(tickets, id, live[id].serial);
    }
  }

  lemma EndedFreesSlot(live: map<OperationId, Live>, tickets: map<nat, Ticket>, serial: nat)
    requires serial in tickets && !tickets[serial].ended && Holds(live, serial, tickets[serial])
    ensures
      var freed := if tickets[serial].admitted then 1 else 0;
      && |Holders(EndedTicket(tickets, serial))| == |Holders(tickets)| - freed
      && |RunningIds(live - {tickets[serial].id})| == |RunningIds(live)| - freed
      && |live - {tickets[serial].id}| == |live| - 1
  {
    var id := tickets[serial].id;
    var live' := live - {id};
    assert Holders(EndedTicket(tickets, serial)) == Holders(tickets) - {serial};
    assert RunningIds(live') == RunningIds(live) - {id};
    assert live'.Keys == live.Keys - {id};
    assert |live'| == |live'.Keys| && |live| == |live.Keys|;
  }

  lemma EndKeepsHistory(tickets: map<nat, Ticket>, ended: seq<EndRecord>, serial: nat, record: EndRecord)
    requires HistoryFits(tickets, ended)
    requires serial in tickets && !tickets[serial].ended
    requires record.serial == serial && record.id == tickets[serial].id && record.admitted == tickets[serial].admitted
    ensures HistoryFits(EndedTicket(tickets, serial), ended + [record])
  {
    var tickets', ended' := EndedTicket(tickets, serial), ended + [record];
    assert ended'[|ended|].serial == serial;
    forall other | other in tickets' && tickets'[other].ended ensures other in Serials(ended') {
      if other != serial {
        var k :| 0 <= k < |ended| && ended[k].serial == other;
        assert ended'[k].serial == other;
      }
    }
  }

  lemma EndKeepsAccounts(s: System, serial: nat, cleanup: Option<Cleanup>)
    requires Accounted(s.host, s.ended) && serial in s.tickets
    ensures
      var t := AfterEnd(s, serial, cleanup);
      Accounted(t.host, t.ended)
  {
    var t := AfterEnd(s, serial, cleanup);
    assert t.ended[..|t.ended| - 1] == s.ended;
    var record := t.ended[|s.ended|];
    if Reports(record) {
      LastOfAppended(Reported(s.ended), (serial, cleanup.value), RECORDED_CANCELLATIONS);
    }
  }

  /** A step of a cancelling or closing thread: the tickets' books stay as they are. */
  ghost predicate Untouched(s: System, t: System) {
    && t.tickets == s.tickets && t.ended == s.ended
    && OnlyCancelledMoved(s.host.live, t.host.live)
    && t.host.running == s.host.running && t.host.registered == s.host.registered
    && t.host.aggregate == s.host.aggregate && t.host.cancellations == s.host.cancellations
  }

  lemma UntouchedKeepsLedger(s: System, t: System)
    requires Ledger(s) && Untouched(s, t)
    ensures Ledger(t)
  {
    assert OnlyPcsMoved(s.tickets, t.tickets);
    QuietKeepsLedger(s, t);
  }

  lemma CancelMoveTouchesNothing(s: System, caller: nat, move: CancelMove)
    requires CancelEnabled(s, caller, move) && !move.NotifyCancelled?
    ensures Untouched(s, AfterCancel(s, caller, move))
  {
    if move.Enter? {
      EnterCancelOnlyMarks(s.host, s.cancels[caller].id);
    }
  }

  lemma EnterCancelOnlyMarks(host: Host, id: OperationId)
    ensures
      var entry := HostState.EnterCancel(host, id);
      (entry.WasWaiting? || entry.WasRunning?) ==>
        id in host.live && entry.host == MarkCancelled(host, id) && OnlyCancelledMoved(host.live, entry.host.live)
  {
  }

  lemma CloseMoveTouchesNothing(s: System, closer: nat, move: CloseMove)
    requires CloseEnabled(s, closer, move) && !move.NotifyClosing? && !move.NotifyPublished?
    ensures Untouched(s, AfterClose(s, closer, move))
  {
    hide NotifyAll, HostState.RunningCancellers;
  }

  lemma NotifyAllKeepsLedger(s: System)
    requires Ledger(s)
    ensures Ledger(NotifyAll(s))
  {
    assert Quiet(s, NotifyAll(s));
    QuietKeepsLedger(s, NotifyAll(s));
  }

  lemma TicketKeepsLedger(s: System, serial: nat, move: TicketMove)
    requires Ledger(s) && TicketEnabled(s, serial, move)
    ensures Ledger(AfterTicket(s, serial, move))
  {
    match move
    case Admit => AdmitKeepsLedger(s, serial);
    case Finish(cleanup) => EndKeepsLedger(s, serial, cleanup);
    case Drop =>
      if s.tickets[serial].ended {
        QuietTicketKeepsLedger(s, serial, Dropped);
      } else {
        EndKeepsLedger(s, serial, None);
      }
    case NotifyEnded =>
      QuietTicketKeepsLedger(s, serial, Finished);
      NotifyAllKeepsLedger(WithTicket(s, serial, s.tickets[serial].(pc := Finished)));
    case Wake => QuietTicketKeepsLedger(s, serial, Checking);
  }

  lemma CancelKeepsLedger(s: System, caller: nat, move: CancelMove)
    requires Ledger(s) && CancelEnabled(s, caller, move)
    ensures Ledger(AfterCancel(s, caller, move))
  {
    if move.NotifyCancelled? {
      var replied := WithCancel(s, caller, Replied(CancelledWaiting(s.cancels[caller].serial)));
      UntouchedKeepsLedger(s, replied);
      NotifyAllKeepsLedger(replied);
    } else {
      CancelMoveTouchesNothing(s, caller, move);
      UntouchedKeepsLedger(s, AfterCancel(s, caller, move));
    }
  }

  lemma CloseKeepsLedger(s: System, closer: nat, move: CloseMove)
    requires Ledger(s) && CloseEnabled(s, closer, move)
    ensures Ledger(AfterClose(s, closer, move))
  {
    if move.NotifyClosing? || move.NotifyPublished? {
      var moved := WithCloser(s, closer, if move.NotifyClosing? then FirstInvoking(s.closes[closer].pc.calls)
                                         else Returning(s.closes[closer].pc.report, false));
      UntouchedKeepsLedger(s, moved);
      NotifyAllKeepsLedger(moved);
    } else {
      CloseMoveTouchesNothing(s, closer, move);
      UntouchedKeepsLedger(s, AfterClose(s, closer, move));
    }
  }

  /** Every step either writes the ledger through one of the lemmas above, or leaves it alone. */
  lemma StepKeepsLedger(s: System, step: Step)
    requires Ledger(s) && Enabled(s, step)
    ensures Ledger(Apply(s, step))
  {
    match step
    case Register(id, canceller) => RegisterKeepsLedger(s, id, canceller);
    case TicketStep(serial, move) => TicketKeepsLedger(s, serial, move);
    case CancelStep(caller, move) => CancelKeepsLedger(s, caller, move);
    case CloseStep(closer, move) => CloseKeepsLedger(s, closer, move);
  }

  lemma InitHasLedger()
    ensures Ledger(INIT)
  {
    assert Holders(INIT.tickets) == {} && RunningIds(INIT.host.live) == {};
  }
}
