/**
  Cancelling one operation: what a cancel promises about the registration it
  reached, and what it may answer.
*/
module HostCancelling {
  import opened Wrappers
  import opened HostState
  import opened HostProtocol
  import opened HostLedger

  // ----- The bounded record, read back -----

  lemma {:induction false} UnreportedIsNotFound(ended: seq<EndRecord>, serial: nat, w: nat)
    requires forall k :: 0 <= k < |ended| && ended[k].serial == serial ==> !Reports(ended[k])
    ensures FindLast(Last(Reported(ended), w), serial) == None
    decreases |ended|
  {
    if ended != [] && w > 0 {
      var n := |ended| - 1;
      if Reports(ended[n]) {
        LastExtends(Reported(ended[..n]), (ended[n].serial, ended[n].cleanup.value), w);
        UnreportedIsNotFound(ended[..n], serial, w - 1);
      } else {
        assert Reported(ended) == Reported(ended[..n]);
        UnreportedIsNotFound(ended[..n], serial, w);
      }
    }
  }

  lemma LastExtends<T>(s: seq<T>, x: T, w: nat)
    requires w > 0
    ensures Last(s + [x], w) == Last(s, w - 1) + [x]
    ensures (Last(s, w - 1) + [x])[..|Last(s, w - 1)|] == Last(s, w - 1)
  {
  }

  /** A newest record under another serial number is passed over. */
  lemma SearchSkips(ended: seq<EndRecord>, serial: nat, w: nat)
    requires ended != [] && ended[|ended| - 1].serial != serial
    ensures
      var n := |ended| - 1;
      FindLast(Last(Reported(ended), w), serial) ==
      FindLast(Last(Reported(ended[..n]), if Reports(ended[n]) && w > 0 then w - 1 else w), serial)
  {
    var n := |ended| - 1;
    if w == 0 {
      assert Last(Reported(ended), w) == [];
    } else if Reports(ended[n]) {
      LastExtends(Reported(ended[..n]), (ended[n].serial, ended[n].cleanup.value), w);
    } else {
      assert Reported(ended) == Reported(ended[..n]);
    }
  }

  lemma LaterReported(ended: seq<EndRecord>, k: nat)
    requires k + 1 < |ended|
    ensures
      var n := |ended| - 1;
      |Reported(ended[k + 1..])| == |Reported(ended[..n][k + 1..])| + (if Reports(ended[n]) then 1 else 0)
  {
    var later := ended[k + 1..];
    assert later[..|later| - 1] == ended[..|ended| - 1][k + 1..];
  }

  /**
    What the search of the record finds for a registration that ended k-th: its
    report, unless it left none as a cancelled one or `w` later ones displaced it.
  */
  lemma {:induction false} RecordKeepsLast(ended: seq<EndRecord>, serial: nat, k: nat, w: nat)
    requires DistinctSerials(ended) && k < |ended| && ended[k].serial == serial
    ensures FindLast(Last(Reported(ended), w), serial) ==
            if Reports(ended[k]) && |Reported(ended[k + 1..])| < w then Some(ended[k].cleanup.value) else None
    decreases |ended|
  {
    hide Reported, FindLast, Last;
    var n := |ended| - 1;
    if k == n {
      NewestIsFound(ended, w);
      NothingLater(ended);
    } else {
      var w' := if Reports(ended[n]) && w > 0 then w - 1 else w;
      SearchSkips(ended, serial, w);
      LaterReported(ended, k);
      RecordKeepsLast(ended[..n], serial, k, w');
      assert ended[..n][k] == ended[k];
    }
  }

  lemma NothingLater(ended: seq<EndRecord>)
    ensures |Reported(ended[|ended|..])| == 0
  {
  }

  lemma NewestIsFound(ended: seq<EndRecord>, w: nat)
    requires DistinctSerials(ended) && ended != []
    ensures
      var last := ended[|ended| - 1];
      FindLast(Last(Reported(ended), w), last.serial) ==
      if Reports(last) && 0 < w then Some(last.cleanup.value) else None
  {
    var n := |ended| - 1;
    if w == 0 {
      assert Last(Reported(ended), w) == [];
    } else if Reports(ended[n]) {
      LastExtends(Reported(ended[..n]), (ended[n].serial, ended[n].cleanup.value), w);
    } else {
      UnreportedIsNotFound(ended, ended[n].serial, w);
    }
  }

  // ----- How tickets move -----

  ghost predicate CancelMarked(live: map<OperationId, Live>, id: OperationId, serial: nat) {
    id in live && live[id].serial == serial && live[id].cancelled
  }

  /** One ticket across one step: admission needs an unmarked registration, and marks stay. */
  ghost predicate TicketAdvances(s: System, t: System, serial: nat)
    requires serial in s.tickets
  {
    && serial in t.tickets
    && t.tickets[serial].id == s.tickets[serial].id
    && (s.tickets[serial].ended ==> t.tickets[serial].ended && t.tickets[serial].admitted == s.tickets[serial].admitted)
    && (s.tickets[serial].admitted ==> t.tickets[serial].admitted)
    && (t.tickets[serial].admitted && !s.tickets[serial].admitted ==>
          !s.host.closing && !CancelMarked(s.host.live, s.tickets[serial].id, serial))
    && (!t.tickets[serial].ended && CancelMarked(s.host.live, s.tickets[serial].id, serial) ==>
          CancelMarked(t.host.live, s.tickets[serial].id, serial))
  }

  /** A new history record describes a ticket that had not ended, as its registration stood. */
  ghost predicate RecordFits(s: System, record: EndRecord) {
    && record.serial in s.tickets && !s.tickets[record.serial].ended
    && record.id == s.tickets[record.serial].id
    && record.cancelled == CancelMarked(s.host.live, record.id, record.serial)
  }

  ghost predicate Advances(s: System, t: System) {
    && (forall serial :: serial in s.tickets ==> TicketAdvances(s, t, serial))
    && s.ended <= t.ended && |t.ended| <= |s.ended| + 1
    && (|t.ended| > |s.ended| ==> RecordFits(s, t.ended[|s.ended|]))
    && s.called <= t.called
  }

  lemma QuietAdvances(s: System, t: System)
    requires Quiet(s, t) && s.called <= t.called
    requires forall id :: id in s.host.live && s.host.live[id].cancelled ==> t.host.live[id].cancelled
    ensures Advances(s, t)
  {
  }

  lemma NotifyAdvances(s: System, moved: System)
    requires PcsFit(s.tickets) && Untouched(s, moved) && moved.host.live == s.host.live && s.called == moved.called
    ensures Advances(s, NotifyAll(moved))
  {
    QuietAdvances(s, NotifyAll(moved));
  }

  lemma TicketStepAdvances(s: System, serial: nat, move: TicketMove)
    requires Ledger(s) && TicketEnabled(s, serial, move)
    ensures Advances(s, AfterTicket(s, serial, move))
  {
    assert PcFits(s.tickets[serial]);
    if move.Admit? {
      AdmitAdvances(s, serial);
    } else if move.Finish? || (move.Drop? && !s.tickets[serial].ended) {
      EndAdvances(s, serial, if move.Finish? then move.cleanup else None);
    } else {
      TicketPcMoveIsQuiet(s, serial, move);
      QuietAdvances(s, AfterTicket(s, serial, move));
    }
  }

  lemma TicketPcMoveIsQuiet(s: System, serial: nat, move: TicketMove)
    requires PcsFit(s.tickets) && TicketEnabled(s, serial, move) && PcFits(s.tickets[serial])
    requires move.NotifyEnded? || move.Wake? || (move.Drop? && s.tickets[serial].ended)
    ensures
      var t := AfterTicket(s, serial, move);
      Quiet(s, t) && t.called == s.called && t.host == s.host
  {
    hide AfterAdmit, AfterEnd, WokenCancel, WokenCloser;
  }

  lemma AdmitAdvances(s: System, serial: nat)
    requires TicketAt(s, serial, {Fresh, Checking}) && PcFits(s.tickets[serial])
    ensures Advances(s, AfterAdmit(s, serial))
  {
  }

  lemma EndAdvances(s: System, serial: nat, cleanup: Option<Cleanup>)
    requires Correspond(s.host.live, s.tickets) && serial in s.tickets && !s.tickets[serial].ended
    ensures Advances(s, AfterEnd(s, serial, cleanup))
  {
    var t := AfterEnd(s, serial, cleanup);
    var id := s.tickets[serial].id;
    assert Holds(s.host.live, serial, s.tickets[serial]);
    forall other | other in s.tickets ensures TicketAdvances(s, t, other) {
      if !s.tickets[other].ended && other != serial {
        assert Holds(s.host.live, other, s.tickets[other]);
      }
    }
  }

  lemma RegisterAdvances(s: System, id: OperationId, canceller: Option<Canceller>)
    requires Ledger(s) && HostState.Register(s.host, id, canceller).Registered?
    ensures Advances(s, AfterRegister(s, id, HostState.Register(s.host, id, canceller).host))
  {
    var t := AfterRegister(s, id, HostState.Register(s.host, id, canceller).host);
    assert t.host.registered !in s.tickets;
    forall other | other in s.tickets ensures TicketAdvances(s, t, other) {
      assert t.tickets[other] == s.tickets[other];
    }
  }

  lemma CancelStepAdvances(s: System, caller: nat, move: CancelMove)
    requires Ledger(s) && CancelEnabled(s, caller, move)
    ensures Advances(s, AfterCancel(s, caller, move))
  {
    if move.NotifyCancelled? {
      NotifyAdvances(s, WithCancel(s, caller, Replied(CancelledWaiting(s.cancels[caller].serial))));
    } else {
      CancelMoveOnlyMarks(s, caller, move);
      CancelMoveTouchesNothing(s, caller, move);
      UntouchedAdvances(s, AfterCancel(s, caller, move));
    }
  }

  lemma UntouchedAdvances(s: System, t: System)
    requires PcsFit(s.tickets) && Untouched(s, t) && s.called <= t.called
    requires forall id :: id in s.host.live && s.host.live[id].cancelled ==> t.host.live[id].cancelled
    ensures Advances(s, t)
  {
    QuietAdvances(s, t);
  }

  lemma CancelMoveOnlyMarks(s: System, caller: nat, move: CancelMove)
    requires CancelEnabled(s, caller, move) && !move.NotifyCancelled?
    ensures
      var t := AfterCancel(s, caller, move);
      && s.called <= t.called && t.host.live.Keys == s.host.live.Keys
      && forall id :: id in s.host.live && s.host.live[id].cancelled ==> t.host.live[id].cancelled
  {
    if move.Enter? {
      EnterCancelOnlyMarks(s.host, s.cancels[caller].id);
    }
  }

  lemma CloseMoveOnlyMarks(s: System, closer: nat, move: CloseMove)
    requires CloseEnabled(s, closer, move) && !move.NotifyClosing? && !move.NotifyPublished?
    ensures
      var t := AfterClose(s, closer, move);
      && s.called <= t.called && t.host.live.Keys == s.host.live.Keys
      && forall id :: id in s.host.live && s.host.live[id].cancelled ==> t.host.live[id].cancelled
  {
    hide NotifyAll, RunningCancellers, LaterCloseDone, LaterReport, WokenCloser;
  }

  lemma CloseStepAdvances(s: System, closer: nat, move: CloseMove)
    requires Ledger(s) && CloseEnabled(s, closer, move)
    ensures Advances(s, AfterClose(s, closer, move))
  {
    if move.NotifyClosing? {
      NotifyAdvances(s, WithCloser(s, closer, FirstInvoking(s.closes[closer].pc.calls)));
    } else if move.NotifyPublished? {
      NotifyAdvances(s, WithCloser(s, closer, Returning(s.closes[closer].pc.report, false)));
    } else {
      CloseMoveOnlyMarks(s, closer, move);
      CloseMoveTouchesNothing(s, closer, move);
      UntouchedAdvances(s, AfterClose(s, closer, move));
    }
  }

  lemma StepAdvances(s: System, step: Step)
    requires Ledger(s) && Enabled(s, step)
    ensures Advances(s, Apply(s, step))
  {
    match step
    case Register(id, canceller) => RegisterAdvances(s, id, canceller);
    case TicketStep(serial, move) => TicketStepAdvances(s, serial, move);
    case CancelStep(caller, move) => CancelStepAdvances(s, caller, move);
    case CloseStep(closer, move) => CloseStepAdvances(s, closer, move);
  }

  // ----- What a cancelling thread relies on -----

  /** A waiting cancel's registration: never admitted, and never to be. */
  ghost predicate NeverAdmitted(s: System, serial: nat) {
    && serial in s.tickets && !s.tickets[serial].admitted
    && (!s.tickets[serial].ended ==> CancelMarked(s.host.live, s.tickets[serial].id, serial))
  }

  /** A running cancel's registration: admitted, and marked from then on. */
  ghost predicate Reached(s: System, id: OperationId, serial: nat) {
    && serial in s.tickets && s.tickets[serial].id == id && s.tickets[serial].admitted
    && (if s.tickets[serial].ended
        then forall k :: 0 <= k < |s.ended| && s.ended[k].serial == serial ==> s.ended[k].cancelled
        else CancelMarked(s.host.live, id, serial))
  }

  /**
    The answer a registration's history calls for: the report it ended with, unless
    it left none or as many later cancelled ones as the record holds displaced it.
  */
  ghost predicate Answers(ended: seq<EndRecord>, serial: nat, cleanup: Cleanup) {
    && serial in Serials(ended)
    && forall k :: 0 <= k < |ended| && ended[k].serial == serial ==>
         && ended[k].cancelled && ended[k].admitted
         && cleanup == if ended[k].cleanup.Some? && |Reported(ended[k + 1..])| < RECORDED_CANCELLATIONS
                       then ended[k].cleanup.value else UNFINISHED
  }

  ghost predicate CancelFits(s: System, pc: CancelPc) {
    match pc
    case Calling(_) => true
    case Announcing(serial) => NeverAdmitted(s, serial)
    case Invoking(id, serial, _) => Reached(s, id, serial)
    case Watching(id, serial) => Reached(s, id, serial) && serial in s.called
    case Sleeping(id, serial) => Reached(s, id, serial) && serial in s.called
    case Replied(reply) =>
      match reply
      case CancelledWaiting(serial) => NeverAdmitted(s, serial)
      case Ended(serial, at, cleanup) =>
        serial in s.called && at <= |s.ended| && Answers(s.ended[..at], serial, cleanup)
      case TimedOut(serial) => serial in s.called
      case _ => true
  }

  ghost predicate CancelsFit(s: System) {
    forall c :: c in s.cancels ==> CancelFits(s, s.cancels[c])
  }

  lemma CancelFitsStays(s: System, t: System, pc: CancelPc)
    requires HistoryFits(s.tickets, s.ended) && Advances(s, t) && CancelFits(s, pc)
    ensures CancelFits(t, pc) && CancelFits(t, WokenCancel(pc))
  {
    match pc
    case Announcing(serial) => assert TicketAdvances(s, t, serial);
    case Invoking(id, serial, _) => ReachedStays(s, t, id, serial);
    case Watching(id, serial) => ReachedStays(s, t, id, serial);
    case Sleeping(id, serial) => ReachedStays(s, t, id, serial);
    case Replied(reply) =>
      if reply.CancelledWaiting? {
        assert TicketAdvances(s, t, reply.serial);
      } else if reply.Ended? {
        assert t.ended[..reply.at] == s.ended[..reply.at];
      }
    case _ =>
  }

  lemma ReachedStays(s: System, t: System, id: OperationId, serial: nat)
    requires HistoryFits(s.tickets, s.ended) && Advances(s, t) && Reached(s, id, serial)
    ensures Reached(t, id, serial)
  {
    assert TicketAdvances(s, t, serial);
    forall k | 0 <= k < |t.ended| && t.ended[k].serial == serial ensures t.ended[k].cancelled {
      if k < |s.ended| {
        assert t.ended[k] == s.ended[k];
      }
    }
  }

  // ----- Every step keeps it -----

  ghost predicate OnlyCancelsWoken(cancels: map<nat, CancelPc>, cancels': map<nat, CancelPc>) {
    forall c :: c in cancels' ==> c in cancels && (cancels'[c] == cancels[c] || cancels'[c] == WokenCancel(cancels[c]))
  }

  lemma OthersKeepCancels(s: System, t: System)
    requires HistoryFits(s.tickets, s.ended) && Advances(s, t) && CancelsFit(s) &&
               OnlyCancelsWoken(s.cancels, t.cancels)
    ensures CancelsFit(t)
  {
    forall c | c in t.cancels ensures CancelFits(t, t.cancels[c]) {
      CancelFitsStays(s, t, s.cancels[c]);
    }
  }

  lemma CallerKeepsCancels(s: System, t: System, caller: nat)
    requires HistoryFits(s.tickets, s.ended) && Advances(s, t) && CancelsFit(s)
    requires OnlyCancelsWoken(s.cancels, t.cancels - {caller})
    requires caller in t.cancels && CancelFits(t, t.cancels[caller])
    ensures CancelsFit(t)
  {
    forall c | c in t.cancels ensures CancelFits(t, t.cancels[c]) {
      if c != caller {
        assert c in t.cancels - {caller};
        CancelFitsStays(s, t, s.cancels[c]);
      }
    }
  }

  lemma EnteredFits(s: System, caller: nat)
    requires Ledger(s) && CancelEnabled(s, caller, Enter)
    ensures
      var t := AfterEnterCancel(s, caller);
      CancelFits(t, t.cancels[caller])
  {
    var id := s.cancels[caller].id;
    if id in s.host.live {
      assert Owned(s.tickets, id, s.host.live[id].serial);
      assert Holds(s.host.live, s.host.live[id].serial, s.tickets[s.host.live[id].serial]);
    }
  }

  lemma WatchedFits(s: System, caller: nat, timedOut: bool)
    requires Ledger(s) && CancelEnabled(s, caller, Watch(timedOut)) && CancelFits(s, s.cancels[caller])
    ensures
      var t := AfterWatchCancelled(s, caller, timedOut);
      CancelFits(t, t.cancels[caller])
  {
    var id, serial := s.cancels[caller].id, s.cancels[caller].serial;
    if !IsLive(s.host, id, serial) {
      assert !s.tickets[serial].ended ==> Holds(s.host.live, serial, s.tickets[serial]);
      EndedAnswers(s, serial);
      assert s.ended[..|s.ended|] == s.ended;
    }
  }

  lemma EndedAnswers(s: System, serial: nat)
    requires HistoryFits(s.tickets, s.ended) && Accounted(s.host, s.ended)
    requires serial in s.tickets && s.tickets[serial].ended && s.tickets[serial].admitted
    requires forall k :: 0 <= k < |s.ended| && s.ended[k].serial == serial ==> s.ended[k].cancelled
    ensures Answers(s.ended, serial, FindLast(s.host.cancellations, serial).GetOr(UNFINISHED))
  {
    assert serial in Serials(s.ended);
    forall k | 0 <= k < |s.ended| && s.ended[k].serial == serial
      ensures FindLast(s.host.cancellations, serial) ==
              if Reports(s.ended[k]) && |Reported(s.ended[k + 1..])| < RECORDED_CANCELLATIONS
              then Some(s.ended[k].cleanup.value) else None
    {
      RecordKeepsLast(s.ended, serial, k, RECORDED_CANCELLATIONS);
    }
  }

  lemma CallerFits(s: System, caller: nat, move: CancelMove)
    requires Ledger(s) && CancelsFit(s) && CancelEnabled(s, caller, move)
    ensures
      var t := AfterCancel(s, caller, move);
      caller in t.cancels && CancelFits(t, t.cancels[caller])
  {
    hide Reached, NeverAdmitted, Answers, Ledger, HostState.EnterCancel, ObserveEnd;
    match move
    case Call(_) =>
    case Enter => EnteredFits(s, caller);
    case Watch(timedOut) =>
      assert CancelFits(s, s.cancels[caller]);
      WatchedFits(s, caller, timedOut);
    case _ =>
      assert CancelFits(s, s.cancels[caller]);
      CancelStepAdvances(s, caller, move);
      LedgerHasHistory(s);
      CancelFitsStays(s, AfterCancel(s, caller, move), s.cancels[caller]);
  }

  lemma LedgerHasHistory(s: System)
    requires Ledger(s)
    ensures HistoryFits(s.tickets, s.ended)
  {
  }

  lemma CancelKeepsCancels(s: System, caller: nat, move: CancelMove)
    requires Ledger(s) && CancelsFit(s) && CancelEnabled(s, caller, move)
    ensures CancelsFit(AfterCancel(s, caller, move))
  {
    CancelStepAdvances(s, caller, move);
    CallerFits(s, caller, move);
    CancelMovesOne(s, caller, move);
    CallerKeepsCancels(s, AfterCancel(s, caller, move), caller);
  }

  lemma CancelMovesOne(s: System, caller: nat, move: CancelMove)
    requires CancelEnabled(s, caller, move)
    ensures OnlyCancelsWoken(s.cancels, AfterCancel(s, caller, move).cancels - {caller})
  {
  }

  lemma StepKeepsCancels(s: System, step: Step)
    requires Ledger(s) && CancelsFit(s) && Enabled(s, step)
    ensures CancelsFit(Apply(s, step))
  {
    if step.CancelStep? {
      CancelKeepsCancels(s, step.caller, step.cancelMove);
    } else {
      StepAdvances(s, step);
      OthersOnlyWake(s, step);
      OthersKeepCancels(s, Apply(s, step));
    }
  }

  lemma OthersOnlyWake(s: System, step: Step)
    requires Enabled(s, step) && !step.CancelStep?
    ensures OnlyCancelsWoken(s.cancels, Apply(s, step).cancels)
    ensures Apply(s, step).cancels.Keys == s.cancels.Keys
  {
    match step
    case TicketStep(serial, move) => TicketOnlyWakes(s, serial, move);
    case CloseStep(closer, move) => CloserOnlyWakes(s, closer, move);
    case _ =>
  }

  lemma TicketOnlyWakes(s: System, serial: nat, move: TicketMove)
    requires TicketEnabled(s, serial, move)
    ensures OnlyCancelsWoken(s.cancels, AfterTicket(s, serial, move).cancels)
    ensures AfterTicket(s, serial, move).cancels.Keys == s.cancels.Keys
  {
    hide TryAdmit, End, WokenTicket, WokenCloser;
  }

  lemma CloserOnlyWakes(s: System, closer: nat, move: CloseMove)
    requires CloseEnabled(s, closer, move)
    ensures OnlyCancelsWoken(s.cancels, AfterClose(s, closer, move).cancels)
    ensures AfterClose(s, closer, move).cancels.Keys == s.cancels.Keys
  {
    hide BeginClose, Publish, WokenTicket, WokenCloser;
  }
}
