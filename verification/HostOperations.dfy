/**
  The host's operations as the object the threads share. Each method is one
  critical section, from taking the lock to dropping it, and does to the fields
  what the section of the same name in HostState does to the host's state; a
  waiting loop is a caller that runs a method again each time it wakes.
*/
module HostOperations {
  import opened Wrappers
  import opened HostState
  import HostLedger
  import HostClosing
  import HostProtocol
  import HostRuns

  /** What every critical section relies on, and leaves behind. */
  ghost predicate HostValid(host: Host) {
    && host.running == |HostLedger.RunningIds(host.live)| && 0 <= host.running <= LIMIT
    && |host.cancellations| <= RECORDED_CANCELLATIONS
    && (forall id :: id in host.live ==> 1 <= host.live[id].serial <= host.registered)
    && (host.exiting ==> host.closing) && (host.report.Some? ==> host.closing)
    && (host.closing ==> HostClosing.AllCancelled(host.live))
  }

  /** In every run, what the methods require of the shared state holds. */
  lemma ReachableHostIsValid(s: HostProtocol.System)
    requires HostProtocol.Reachable(s)
    ensures HostValid(s.host)
  {
    HostRuns.ReachableIsInvariant(s);
    forall id | id in s.host.live ensures 1 <= s.host.live[id].serial <= s.host.registered {
      assert HostLedger.Owned(s.tickets, id, s.host.live[id].serial);
    }
  }

  lemma RunningIdsGrow(live: map<OperationId, Live>, id: OperationId)
    requires id in live && !live[id].running
    ensures |HostLedger.RunningIds(live[id := live[id].(running := true)])| == |HostLedger.RunningIds(live)| + 1
  {
    assert HostLedger.RunningIds(live[id := live[id].(running := true)]) == HostLedger.RunningIds(live) + {id};
  }

  lemma RunningIdsShrink(live: map<OperationId, Live>, id: OperationId)
    requires id in live
    ensures |HostLedger.RunningIds(live - {id})| == |HostLedger.RunningIds(live)| - (if live[id].running then 1 else 0)
  {
    assert HostLedger.RunningIds(live - {id}) == HostLedger.RunningIds(live) - {id};
    assert live[id].running <==> id in HostLedger.RunningIds(live);
  }

  ghost function PartlyMarked(live: map<OperationId, Live>, unmarked: set<OperationId>): map<OperationId, Live> {
    map id | id in live :: if id in unmarked then live[id] else live[id].(cancelled := true)
  }

  class Operations {
    var live: map<OperationId, Live>
    var running: nat
    var registered: nat
    var closing: bool
    var exiting: bool
    var report: Option<Cleanup>
    var aggregate: Aggregate
    var cancellations: seq<(nat, Cleanup)>

    ghost function View(): Host
      reads this
    {
      Host(live, running, registered, closing, exiting, report, aggregate, cancellations)
    }

    ghost predicate Valid()
      reads this
    {
      HostValid(View())
    }

    constructor ()
      ensures Valid() && View() == NEW_HOST
    {
      live, running, registered := map[], 0, 0;
      closing, exiting, report := false, false, None;
      aggregate, cancellations := Aggregate(0, 0, 0), [];
      new;
      assert HostLedger.RunningIds(live) == {};
    }

    method Register(id: OperationId, canceller: Option<Canceller>) returns (ticket: Option<Ticket>)
      requires Valid()
      modifies this
      ensures Valid()
      ensures ticket.Some? <==> !old(closing) && id !in old(live)
      ensures ticket.None? ==> View() == old(View())
      ensures ticket.Some? ==>
                && fresh(ticket.value)
                && HostState.Register(old(View()), id, canceller) == Registered(View())
                && registered == old(registered) + 1
                && live == old(live)[id := Live(registered, false, false, canceller)]
                && ticket.value.operations == this && ticket.value.id == id && ticket.value.serial == registered
                && ticket.value.Waiting()
    {
      if closing || id in live {
        return None;
      }
      registered := registered + 1;
      live := live[id := Live(registered, false, false, canceller)];
      assert HostLedger.RunningIds(live) == HostLedger.RunningIds(old(live));
      var issued := new Ticket(this, id, registered);
      ticket := Some(issued);
    }

    method EnterCancel(id: OperationId) returns (waiting: bool, reached: Option<(nat, Canceller)>)
      requires Valid()
      modifies this
      ensures Valid()
      ensures waiting <==> id in old(live) && !old(live)[id].running
      ensures reached == if id in old(live) && old(live)[id].running && old(live)[id].canceller.Some?
                         then Some((old(live)[id].serial, old(live)[id].canceller.value)) else None
      ensures live == if waiting || reached.Some? then old(live)[id := old(live)[id].(cancelled := true)] else old(live)
      ensures match HostState.EnterCancel(old(View()), id)
              case WasWaiting(host, _) => View() == host && reached.None?
              case WasRunning(host, serial, canceller) => View() == host && reached == Some((serial, canceller))
              case _ => View() == old(View()) && reached.None?
    {
      waiting, reached := false, None;
      if id !in live {
        return;
      }
      var found := live[id];
      if found.running && found.canceller.None? {
        return;
      }
      if found.running {
        reached := Some((found.serial, found.canceller.value));
      } else {
        waiting := true;
      }
      live := live[id := found.(cancelled := true)];
      assert HostLedger.RunningIds(live) == HostLedger.RunningIds(old(live));
    }

    /** The answer a waiting cancel may return, once its registration has ended. */
    method ObserveEnd(id: OperationId, serial: nat) returns (answer: Option<Cleanup>)
      ensures answer == HostState.ObserveEnd(View(), id, serial)
    {
      if id in live && live[id].serial == serial {
        return None;
      }
      var i := |cancellations|;
      assert cancellations[..i] == cancellations;
      while i > 0
        invariant 0 <= i <= |cancellations|
        invariant FindLast(cancellations, serial) == FindLast(cancellations[..i], serial)
      {
        i := i - 1;
        assert cancellations[..i + 1][..i] == cancellations[..i];
        if cancellations[i].0 == serial {
          return Some(cancellations[i].1);
        }
      }
      answer := Some(UNFINISHED);
    }

    method BeginClose(exit: bool) returns (first: bool, calls: set<(nat, Canceller)>)
      requires Valid()
      modifies this
      ensures Valid()
      ensures View() == HostState.BeginClose(old(View()), exit)
      ensures closing && exiting == (old(exiting) || exit)
      ensures live.Keys == old(live).Keys
      ensures forall id :: id in live ==>
                live[id] == if first then old(live)[id].(cancelled := true) else old(live)[id]
      ensures first <==> !old(closing)
      ensures calls == if first then RunningCancellers(old(live)) else {}
    {
      exiting := exiting || exit;
      first, calls := !closing, {};
      if first {
        closing := true;
        calls := MarkAll();
        assert HostLedger.RunningIds(live) == HostLedger.RunningIds(old(live));
      }
    }

    /** Marks the live operations, one at a time, and collects the running ones' cancellers. */
    method MarkAll() returns (calls: set<(nat, Canceller)>)
      modifies this`live
      ensures live == MarkAllCancelled(old(live)) && calls == RunningCancellers(old(live))
    {
      calls := {};
      ghost var before := live;
      var unmarked := live.Keys;
      MarkingBounds(before);
      while unmarked != {}
        invariant unmarked <= before.Keys
        invariant live == PartlyMarked(before, unmarked)
        invariant calls == RunningCancellers(before - unmarked)
        decreases |unmarked|
      {
        var id :| id in unmarked;
        var entry := live[id];
        MarksOneMore(before, unmarked, id);
        if entry.running && entry.canceller.Some? {
          calls := calls + {(entry.serial, entry.canceller.value)};
        }
        live := live[id := entry.(cancelled := true)];
        unmarked := unmarked - {id};
      }
    }

    /** Takes out the registration that `serial` made, and tells whether it was cancelled. */
    method Unregister(id: OperationId, serial: nat) returns (cancelled: bool)
      modifies this`live
      ensures cancelled == WasCancelled(old(View()), id, serial)
      ensures live == if IsLive(old(View()), id, serial) then old(live) - {id} else old(live)
      ensures |HostLedger.RunningIds(live)| == |HostLedger.RunningIds(old(live))|
           - if IsLive(old(View()), id, serial) && old(live)[id].running then 1 else 0
    {
      cancelled := false;
      if id in live && live[id].serial == serial {
        cancelled := live[id].cancelled;
        RunningIdsShrink(live, id);
        live := live - {id};
      }
    }

    /** The bounded record of completed cancellations: a full one lets its oldest go. */
    method RecordCancellation(serial: nat, cleanup: Cleanup)
      requires |cancellations| <= RECORDED_CANCELLATIONS
      modifies this`cancellations
      ensures cancellations == Recorded(old(cancellations), (serial, cleanup))
      ensures |cancellations| <= RECORDED_CANCELLATIONS
    {
      if |cancellations| == RECORDED_CANCELLATIONS {
        cancellations := cancellations[1..];
      }
      cancellations := cancellations + [(serial, cleanup)];
    }

    method Publish() returns (published: Cleanup)
      requires Valid() && closing
      modifies this`report
      ensures Valid() && View() == HostState.Publish(old(View())) && report == Some(published)
      ensures published.pendingLocalWork == aggregate.pendingLocalWork + |live|
      ensures published.peerCleanupConfirmed <==>
              aggregate.confirmed > 0 && aggregate.unconfirmed == 0 && live == map[]
    {
      published := aggregate.Report(|live|);
      report := Some(published);
    }

    /** A later close's turn: whether it may return, and what it returns if it does or its bound has passed. */
    method LaterTurn(exit: bool) returns (done: bool, figure: Cleanup)
      ensures done <==> report.Some? && (exit ==> live == map[])
      ensures done == LaterCloseDone(View(), exit) && figure == LaterReport(View())
      ensures report.Some? ==> figure == report.value
      ensures report.None? ==>
                && figure.pendingLocalWork == aggregate.pendingLocalWork + |live|
                && (figure.peerCleanupConfirmed <==>
                      aggregate.confirmed > 0 && aggregate.unconfirmed == 0 && live == map[])
    {
      done := report.Some? && (!exit || |live| == 0);
      figure := if report.Some? then report.value else aggregate.Report(|live|);
    }

    method IsIdle() returns (idle: bool)
      ensures idle <==> View().live == map[]
    {
      idle := |live| == 0;
    }
  }

  /** What a `ClientHost` adds: its exit hook, which a close from Python takes away once nothing is live. */
  class ClientHost {
    const operations: Operations
    var hooked: bool

    constructor (operations: Operations)
      ensures this.operations == operations && hooked
    {
      this.operations, hooked := operations, true;
    }

    method UnhookIfIdle()
      requires operations.Valid()
      modifies this`hooked
      ensures hooked <==> old(hooked) && operations.View().live != map[]
    {
      var idle := operations.IsIdle();
      if idle {
        hooked := false;
      }
    }
  }

  lemma MoreCancellers(live: map<OperationId, Live>, id: OperationId, entry: Live)
    requires id !in live
    ensures RunningCancellers(live[id := entry]) ==
            RunningCancellers(live) +
            (if entry.running && entry.canceller.Some? then {(entry.serial, entry.canceller.value)} else {})
  {
    var live' := live[id := entry];
    forall call | call in RunningCancellers(live) ensures call in RunningCancellers(live') {
      var other :| other in live && live[other].running && live[other].canceller.Some?
                   && call == (live[other].serial, live[other].canceller.value);
      assert live'[other] == live[other];
    }
    assert live'[id] == entry;
  }

  lemma MarkingBounds(live: map<OperationId, Live>)
    ensures PartlyMarked(live, live.Keys) == live && RunningCancellers(live - live.Keys) == {}
    ensures PartlyMarked(live, {}) == MarkAllCancelled(live) && RunningCancellers(live - {}) == RunningCancellers(live)
  {
    assert live - {} == live;
  }

  lemma MarksOneMore(live: map<OperationId, Live>, unmarked: set<OperationId>, id: OperationId)
    requires id in unmarked && id in live
    ensures PartlyMarked(live, unmarked)[id] == live[id]
    ensures PartlyMarked(live, unmarked)[id := live[id].(cancelled := true)] == PartlyMarked(live, unmarked - {id})
    ensures RunningCancellers(live - (unmarked - {id})) ==
            RunningCancellers(live - unmarked) +
            (if live[id].running && live[id].canceller.Some? then {(live[id].serial, live[id].canceller.value)} else {})
  {
    MoreCancellers(live - unmarked, id, live[id]);
    assert (live - unmarked)[id := live[id]] == live - (unmarked - {id});
  }

  /** One registered operation: its registration, and once admitted its slot, until it ends. */
  class Ticket {
    const operations: Operations
    const id: OperationId
    const serial: nat
    var admitted: bool
    var ended: bool

    /** While it has not ended, its registration stands and says whether it holds a slot. */
    ghost predicate Registered()
      reads this, operations
    {
      IsLive(operations.View(), id, serial) && operations.live[id].running == admitted
    }

    /** A registration that is gone holds no slot. */
    ghost predicate Fits()
      reads this, operations
    {
      Registered() || (!admitted && !IsLive(operations.View(), id, serial))
    }

    ghost predicate Waiting()
      reads this, operations
    {
      !admitted && !ended && Registered()
    }

    constructor (operations: Operations, id: OperationId, serial: nat)
      ensures this.operations == operations && this.id == id && this.serial == serial && !admitted && !ended
    {
      this.operations, this.id, this.serial := operations, id, serial;
      admitted, ended := false, false;
    }

    /** One turn of `admit`, which is called at most once a ticket. */
    method TryAdmit() returns (refused: bool)
      requires operations.Valid() && !admitted && !ended && Fits()
      modifies this`admitted, operations`live, operations`running
      ensures operations.Valid() && !ended && Fits()
      ensures
        var before := old(operations.live);
        var refusal := id !in before || before[id].serial != serial || before[id].cancelled || operations.closing;
        && (refused <==> refusal)
        && (admitted <==> !refusal && old(operations.running) < 8)
        && operations.running == old(operations.running) + (if admitted then 1 else 0)
        && operations.live == if admitted then before[id := before[id].(running := true)] else before
      ensures match HostState.TryAdmit(old(operations.View()), id, serial)
              case Admitted(host) => operations.View() == host && admitted && !refused
              case RefusedCancelled => operations.View() == old(operations.View()) && !admitted && refused
              case MustWait => operations.View() == old(operations.View()) && !admitted && !refused
    {
      if id !in operations.live || operations.live[id].serial != serial {
        return true;
      }
      if operations.live[id].cancelled || operations.closing {
        return true;
      }
      refused := false;
      if operations.running < LIMIT {
        RunningIdsGrow(operations.live, id);
        operations.live := operations.live[id := operations.live[id].(running := true)];
        operations.running := operations.running + 1;
        admitted := true;
      }
    }

    /** The end of the operation: it tells whether the host has closed at interpreter exit. */
    method End(cleanup: Option<Cleanup>) returns (exiting: bool)
      requires operations.Valid() && !ended && Fits()
      modifies this`ended, operations
      ensures operations.Valid() && ended
      ensures operations.View() == HostState.End(old(operations.View()), id, serial, admitted, cleanup)
      ensures !IsLive(operations.View(), id, serial) && exiting == old(operations.exiting)
      ensures operations.running == old(operations.running) - (if admitted then 1 else 0)
      ensures operations.aggregate == if cleanup.Some? then old(operations.aggregate).Add(cleanup.value)
                                      else old(operations.aggregate)
    {
      hide Recorded, WasCancelled, HostLedger.RunningIds;
      ended := true;
      var cancelled := operations.Unregister(id, serial);
      if admitted {
        operations.running := operations.running - 1;
      }
      if cleanup.Some? {
        operations.aggregate := operations.aggregate.Add(cleanup.value);
        if cancelled {
          operations.RecordCancellation(serial, cleanup.value);
        }
      }
      exiting := operations.exiting;
    }

    /** A drop ends a ticket that `finish` did not, and leaves one that it did alone. */
    method Drop()
      requires operations.Valid() && (!ended ==> Fits())
      modifies this`ended, operations
      ensures operations.Valid() && ended
      ensures operations.View() == if old(ended) then old(operations.View())
                                   else HostState.End(old(operations.View()), id, serial, admitted, None)
    {
      if !ended {
        var _ := End(None);
      }
    }
  }
}
