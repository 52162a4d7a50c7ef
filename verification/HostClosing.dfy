/**
  Closing a host: one first close, its report, and what holds once it has begun.
*/
module HostClosing {
  import opened Wrappers
  import opened HostState
  import opened HostProtocol
  import opened HostLedger

  // ----- The report, counted from the history -----

  predicate Confirmed(record: EndRecord) {
    record.cleanup.Some? && record.cleanup.value.peerCleanupConfirmed
  }

  ghost function Pending(ended: seq<EndRecord>): nat {
    if ended == [] then 0
    else
      var cleanup := ended[|ended| - 1].cleanup;
      Pending(ended[..|ended| - 1]) + (if cleanup.Some? then cleanup.value.pendingLocalWork else 0)
  }

  ghost predicate AnyConfirmed(ended: seq<EndRecord>) {
    exists k :: 0 <= k < |ended| && Confirmed(ended[k])
  }

  ghost predicate NoneUnconfirmed(ended: seq<EndRecord>) {
    forall k :: 0 <= k < |ended| && ended[k].cleanup.Some? ==> Confirmed(ended[k])
  }

  /** What a close owes its caller: every report's jobs, and one for each operation still live. */
  ghost function ReportOf(ended: seq<EndRecord>, unfinished: nat): Cleanup {
    Cleanup(Pending(ended) + unfinished, AnyConfirmed(ended) && NoneUnconfirmed(ended) && unfinished == 0)
  }

  lemma {:induction false} TotalsCount(ended: seq<EndRecord>)
    ensures Totals(ended).pendingLocalWork == Pending(ended)
    ensures Totals(ended).confirmed > 0 <==> AnyConfirmed(ended)
    ensures Totals(ended).unconfirmed == 0 <==> NoneUnconfirmed(ended)
  {
    if ended != [] {
      var n := |ended| - 1;
      TotalsCount(ended[..n]);
      assert forall k :: 0 <= k < n ==> ended[..n][k] == ended[k];
      assert AnyConfirmed(ended) <==> AnyConfirmed(ended[..n]) || Confirmed(ended[n]);
      assert NoneUnconfirmed(ended) <==>
             NoneUnconfirmed(ended[..n]) && (ended[n].cleanup.Some? ==> Confirmed(ended[n]));
    }
  }

  lemma AggregateReports(ended: seq<EndRecord>, unfinished: nat)
    ensures Totals(ended).Report(unfinished) == ReportOf(ended, unfinished)
  {
    TotalsCount(ended);
  }

  // ----- What holds around a close -----

  predicate BeforeReport(pc: ClosePc) {
    pc.FirstAnnouncing? || pc.FirstInvoking? || pc.FirstWatching? || pc.FirstSleeping?
  }

  ghost predicate AllCancelled(live: map<OperationId, Live>) {
    forall id :: id in live ==> live[id].cancelled
  }

  ghost predicate FlagsFit(host: Host, hooked: bool) {
    && (host.exiting ==> host.closing)
    && (!host.closing ==> host.report.None? && hooked)
    && (host.closing ==> AllCancelled(host.live))
    && (!hooked ==> host.live == map[])
  }

  /** What a close returned is the one report, or an interim figure when its bound passed first. */
  predicate ReplyFits(report: Option<Cleanup>, pc: ClosePc) {
    match pc
    case FirstPublished(r) => report == Some(r)
    case Returning(r, interim) => interim || report == Some(r)
    case Closed(r, interim) => interim || report == Some(r)
    case _ => true
  }

  ghost predicate OneFirst(closes: map<nat, Closer>) {
    forall c, d :: c in closes && d in closes && BeforeReport(closes[c].pc) && BeforeReport(closes[d].pc) ==> c == d
  }

  ghost predicate SomeFirst(closes: map<nat, Closer>) {
    exists c :: c in closes && BeforeReport(closes[c].pc)
  }

  ghost predicate ClosersFit(closing: bool, report: Option<Cleanup>, closes: map<nat, Closer>) {
    && (!closing ==> forall c :: c in closes ==> closes[c].pc.Entering?)
    && OneFirst(closes)
    && (SomeFirst(closes) <==> closing && report.None?)
    && (forall c :: c in closes ==> ReplyFits(report, closes[c].pc))
  }

  ghost predicate PublishedFits(host: Host, ended: seq<EndRecord>, publishedAt: nat) {
    host.report.Some? ==>
      && publishedAt <= |ended| && publishedAt <= host.registered
      && host.report.value == ReportOf(ended[..publishedAt], host.registered - publishedAt)
  }

  ghost predicate ClosingFits(s: System) {
    && FlagsFit(s.host, s.hooked)
    && ClosersFit(s.host.closing, s.host.report, s.closes)
    && PublishedFits(s.host, s.ended, s.publishedAt)
  }

  // ----- Every step keeps it -----

  ghost predicate OnlyWoken(closes: map<nat, Closer>, closes': map<nat, Closer>) {
    closes'.Keys == closes.Keys && forall c :: c in closes ==>
      closes'[c] == closes[c] || closes'[c] == WokenCloser(closes[c])
  }

  lemma WokenClosersFit(closing: bool, report: Option<Cleanup>, closes: map<nat, Closer>, closes': map<nat, Closer>)
    requires ClosersFit(closing, report, closes) && OnlyWoken(closes, closes')
    ensures ClosersFit(closing, report, closes')
  {
    forall c | c in closes
      ensures BeforeReport(closes'[c].pc) == BeforeReport(closes[c].pc)
      ensures ReplyFits(report, closes'[c].pc) && (closes[c].pc.Entering? ==> closes'[c].pc.Entering?)
    {
      assert ReplyFits(report, closes[c].pc);
    }
    if SomeFirst(closes) {
      var c :| c in closes && BeforeReport(closes[c].pc);
      assert BeforeReport(closes'[c].pc);
    }
    if SomeFirst(closes') {
      var c :| c in closes' && BeforeReport(closes'[c].pc);
      assert BeforeReport(closes[c].pc);
    }
  }

  /** A closer that moves without becoming, or ceasing to be, the first close before its report. */
  lemma MovedCloserFits(closing: bool, report: Option<Cleanup>, closes: map<nat, Closer>, c: nat, closer: Closer)
    requires ClosersFit(closing, report, closes)
    requires ReplyFits(report, closer.pc) && (!closing ==> closer.pc.Entering?)
    requires BeforeReport(closer.pc) == (c in closes && BeforeReport(closes[c].pc))
    ensures ClosersFit(closing, report, closes[c := closer])
  {
    var closes' := closes[c := closer];
    if SomeFirst(closes) {
      var d :| d in closes && BeforeReport(closes[d].pc);
      assert BeforeReport(closes'[d].pc);
    }
    if SomeFirst(closes') {
      var d :| d in closes' && BeforeReport(closes'[d].pc);
      assert BeforeReport(closes[d].pc);
    }
  }

  lemma FirstCloserFits(closes: map<nat, Closer>, c: nat, closer: Closer)
    requires ClosersFit(false, None, closes) && c in closes && BeforeReport(closer.pc)
    ensures ClosersFit(true, None, closes[c := closer])
  {
    assert BeforeReport(closes[c := closer][c].pc);
  }

  lemma PublishedCloserFits(closes: map<nat, Closer>, c: nat, report: Cleanup)
    requires ClosersFit(true, None, closes) && c in closes && BeforeReport(closes[c].pc)
    ensures ClosersFit(true, Some(report), closes[c := closes[c].(pc := FirstPublished(report))])
  {
    forall d | d in closes && d != c
      ensures !BeforeReport(closes[d].pc) && ReplyFits(Some(report), closes[d].pc)
    {
      assert ReplyFits(None, closes[d].pc);
    }
  }

  /** A step of a ticket or of a cancelling thread, seen from the closing threads. */
  ghost predicate CloseUnmoved(s: System, t: System) {
    && t.host.closing == s.host.closing && t.host.exiting == s.host.exiting && t.host.report == s.host.report
    && t.hooked == s.hooked && t.publishedAt == s.publishedAt
    && (s.host.closing ==>
          && t.host.registered == s.host.registered
          && t.host.live.Keys <= s.host.live.Keys
          && (AllCancelled(s.host.live) ==> AllCancelled(t.host.live)))
    && s.ended <= t.ended
    && OnlyWoken(s.closes, t.closes)
  }

  lemma UnmovedKeepsClosing(s: System, t: System)
    requires ClosingFits(s) && CloseUnmoved(s, t)
    ensures ClosingFits(t)
  {
    WokenClosersFit(s.host.closing, s.host.report, s.closes, t.closes);
    if s.host.report.Some? {
      assert t.ended[..t.publishedAt] == s.ended[..s.publishedAt];
    }
    if !s.hooked {
      assert t.host.live.Keys == {};
    }
  }

  lemma NotifyLeavesCloseUnmoved(s: System)
    ensures CloseUnmoved(s, NotifyAll(s))
  {
  }

  lemma RegisterKeepsClosing(s: System, id: OperationId, canceller: Option<Canceller>)
    requires ClosingFits(s) && HostState.Register(s.host, id, canceller).Registered?
    ensures ClosingFits(AfterRegister(s, id, HostState.Register(s.host, id, canceller).host))
  {
    UnmovedKeepsClosing(s, AfterRegister(s, id, HostState.Register(s.host, id, canceller).host));
  }

  lemma TicketKeepsClosing(s: System, serial: nat, move: TicketMove)
    requires ClosingFits(s) && TicketEnabled(s, serial, move)
    ensures ClosingFits(AfterTicket(s, serial, move))
  {
    if move.NotifyEnded? {
      var moved := WithTicket(s, serial, s.tickets[serial].(pc := Finished));
      UnmovedKeepsClosing(s, moved);
      NotifyLeavesCloseUnmoved(moved);
      UnmovedKeepsClosing(moved, NotifyAll(moved));
    } else {
      TicketMoveLeavesCloseUnmoved(s, serial, move);
      UnmovedKeepsClosing(s, AfterTicket(s, serial, move));
    }
  }

  lemma TicketMoveLeavesCloseUnmoved(s: System, serial: nat, move: TicketMove)
    requires TicketEnabled(s, serial, move) && !move.NotifyEnded?
    ensures CloseUnmoved(s, AfterTicket(s, serial, move))
  {
    hide NotifyAll, WokenTicket, Recorded, WasCancelled;
  }

  lemma CancelKeepsClosing(s: System, caller: nat, move: CancelMove)
    requires ClosingFits(s) && CancelEnabled(s, caller, move)
    ensures ClosingFits(AfterCancel(s, caller, move))
  {
    if move.NotifyCancelled? {
      var moved := WithCancel(s, caller, Replied(CancelledWaiting(s.cancels[caller].serial)));
      UnmovedKeepsClosing(s, moved);
      NotifyLeavesCloseUnmoved(moved);
      UnmovedKeepsClosing(moved, NotifyAll(moved));
    } else {
      CancelMoveLeavesCloseUnmoved(s, caller, move);
      UnmovedKeepsClosing(s, AfterCancel(s, caller, move));
    }
  }

  lemma CancelMoveLeavesCloseUnmoved(s: System, caller: nat, move: CancelMove)
    requires CancelEnabled(s, caller, move) && !move.NotifyCancelled?
    ensures CloseUnmoved(s, AfterCancel(s, caller, move))
  {
    hide NotifyAll, WokenCancel, ObserveEnd;
    if move.Enter? {
      EnterCancelOnlyMarks(s.host, s.cancels[caller].id);
    }
  }

  lemma EnterKeepsClosing(s: System, closer: nat)
    requires ClosingFits(s) && CloseEnabled(s, closer, EnterClose)
    ensures ClosingFits(AfterEnterClose(s, closer))
  {
    var t := AfterEnterClose(s, closer);
    if s.host.closing {
      MovedCloserFits(true, s.host.report, s.closes, closer, t.closes[closer]);
    } else {
      FirstCloserFits(s.closes, closer, t.closes[closer]);
    }
  }

  lemma PublishKeepsClosing(s: System, closer: nat)
    requires Ledger(s) && ClosingFits(s)
    requires closer in s.closes && BeforeReport(s.closes[closer].pc)
    ensures ClosingFits(AfterPublish(s, closer))
  {
    assert SomeFirst(s.closes);
    var t := AfterPublish(s, closer);
    PublishedCloserFits(s.closes, closer, t.host.report.value);
    AggregateReports(s.ended, |s.host.live|);
    assert t.ended[..t.publishedAt] == s.ended;
  }

  lemma CloserMoveKeepsClosing(s: System, closer: nat, move: CloseMove)
    requires ClosingFits(s) && CloseEnabled(s, closer, move)
    requires move.Begin? || move.InvokeOne? || move.WatchReport? || move.RouseCloser? || move.CheckIdle?
    ensures ClosingFits(AfterClose(s, closer, move))
  {
    var t := AfterClose(s, closer, move);
    if !move.Begin? {
      assert ReplyFits(s.host.report, s.closes[closer].pc);
    }
    MovedCloserFits(s.host.closing, s.host.report, s.closes, closer, t.closes[closer]);
  }

  lemma CloseKeepsClosing(s: System, closer: nat, move: CloseMove)
    requires Ledger(s) && ClosingFits(s) && CloseEnabled(s, closer, move)
    ensures ClosingFits(AfterClose(s, closer, move))
  {
    match move
    case EnterClose => EnterKeepsClosing(s, closer);
    case NotifyClosing =>
      AnnouncedKeepsClosing(s, closer, FirstInvoking(s.closes[closer].pc.calls));
    case NotifyPublished =>
      AnnouncedKeepsClosing(s, closer, Returning(s.closes[closer].pc.report, false));
    case WatchEmpty(timedOut) =>
      if s.host.live == map[] || timedOut {
        PublishKeepsClosing(s, closer);
      } else {
        MovedCloserFits(s.host.closing, s.host.report, s.closes, closer, s.closes[closer].(pc := FirstSleeping));
      }
    case _ => CloserMoveKeepsClosing(s, closer, move);
  }

  lemma AnnouncedKeepsClosing(s: System, closer: nat, pc: ClosePc)
    requires ClosingFits(s) && closer in s.closes && !s.closes[closer].pc.Entering?
    requires BeforeReport(pc) == BeforeReport(s.closes[closer].pc)
    requires ReplyFits(s.host.report, s.closes[closer].pc) ==> ReplyFits(s.host.report, pc)
    ensures ClosingFits(NotifyAll(WithCloser(s, closer, pc)))
  {
    var moved := WithCloser(s, closer, pc);
    MovedCloserFits(s.host.closing, s.host.report, s.closes, closer, moved.closes[closer]);
    NotifyLeavesCloseUnmoved(moved);
    UnmovedKeepsClosing(moved, NotifyAll(moved));
  }

  lemma StepKeepsClosing(s: System, step: Step)
    requires Ledger(s) && ClosingFits(s) && Enabled(s, step)
    ensures ClosingFits(Apply(s, step))
  {
    match step
    case Register(id, canceller) => RegisterKeepsClosing(s, id, canceller);
    case TicketStep(serial, move) => TicketKeepsClosing(s, serial, move);
    case CancelStep(caller, move) => CancelKeepsClosing(s, caller, move);
    case CloseStep(closer, move) => CloseKeepsClosing(s, closer, move);
  }
}
