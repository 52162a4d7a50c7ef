/**
  The report a Python client keeps of its closes: the first one that any of its closes
  brought back. It is the host's report, or an interim figure that a close brought back
  because its bound passed first; it is told exactly when that figure is the report too.
*/
module CloseReports {

  import opened Wrappers
  import opened HostState
  import opened HostProtocol
  import opened HostLedger
  import opened HostClosing
  import HostCalls
  import HostCancelling
  import HostRuns
  import HostWakeups

  // ----- What the client keeps -----

  /** Keeping one more report: the first stays. */
  function Keep(kept: Option<Cleanup>, report: Cleanup): Cleanup {
    kept.GetOr(report)
  }

  /** What is kept after these reports came back, in this order. */
  function Kept(reports: seq<Cleanup>): Option<Cleanup> {
    if |reports| == 0 then None else Some(Keep(Kept(reports[..|reports| - 1]), reports[|reports| - 1]))
  }

  class Bridge {
    var closed: bool
    var closeResult: Option<Cleanup>

    constructor ()
      ensures !closed && closeResult == Kept([])
    {
      closed, closeResult := false, None;
    }

    method BeginClose()
      modifies this`closed
      ensures closed
    {
      closed := true;
    }

    /** Kept under the bridge's own guard; a close returns what is kept. */
    method KeepCloseReport(report: Cleanup) returns (kept: Cleanup)
      modifies this`closeResult
      ensures kept == Keep(old(closeResult), report) && closeResult == Some(kept)
    {
      if closeResult.None? {
        closeResult := Some(report);
      }
      kept := closeResult.value;
    }

    /** One close after another, in the order in which their reports come back. */
    method KeepInTurn(reports: seq<Cleanup>) returns (answers: seq<Cleanup>)
      requires closeResult == Kept([])
      modifies this`closeResult
      ensures closeResult == Kept(reports) && |answers| == |reports|
      ensures forall k :: 0 <= k < |answers| ==> Some(answers[k]) == Kept(reports)
    {
      answers := [];
      for n := 0 to |reports|
        invariant closeResult == Kept(reports[..n]) && |answers| == n
        invariant forall k :: 0 <= k < n ==> Some(answers[k]) == Kept(reports)
      {
        assert reports[..n + 1][..n] == reports[..n];
        var kept := KeepCloseReport(reports[n]);
        KeptIsTheFirst(reports[..n + 1]);
        KeptIsTheFirst(reports);
        answers := answers + [kept];
      }
      assert reports[..|reports|] == reports;
    }
  }

  lemma {:induction false} KeptIsTheFirst(reports: seq<Cleanup>)
    requires |reports| > 0
    ensures Kept(reports) == Some(reports[0])
  {
    var n := |reports| - 1;
    if n > 0 {
      KeptIsTheFirst(reports[..n]);
    }
  }

  // ----- Where an interim figure comes from -----

  predicate Brought(pc: ClosePc, report: Cleanup) {
    pc == Returning(report, true) || pc == Closed(report, true)
  }

  /** The close's bound passed, with no report published, and it took the figure of that moment. */
  ghost predicate TakesFigure(s: System, t: System, c: nat, figure: Cleanup) {
    && CloseEnabled(s, c, WatchReport(true)) && t == AfterClose(s, c, WatchReport(true))
    && s.host.report.None? && figure == LaterReport(s.host)
  }

  lemma FigureIsTakenOrHeld(s: System, step: Step, c: nat, figure: Cleanup)
    requires Enabled(s, step)
    requires
      var t := HostProtocol.Apply(s, step);
      c in t.closes && Brought(t.closes[c].pc, figure)
    ensures (c in s.closes && Brought(s.closes[c].pc, figure)) || TakesFigure(s, HostProtocol.Apply(s, step), c, figure)
  {
    match step
    case TicketStep(serial, move) => TicketOnlyWakesClosers(s, serial, move);
    case CancelStep(caller, move) => CancelOnlyWakesClosers(s, caller, move);
    case CloseStep(closer, move) => CloserTakesOrHolds(s, closer, move, c, figure);
    case _ =>
  }

  lemma TicketOnlyWakesClosers(s: System, serial: nat, move: TicketMove)
    requires TicketEnabled(s, serial, move)
    ensures OnlyWoken(s.closes, AfterTicket(s, serial, move).closes)
  {
    hide TryAdmit, End, WokenTicket, WokenCancel;
  }

  lemma CancelOnlyWakesClosers(s: System, caller: nat, move: CancelMove)
    requires CancelEnabled(s, caller, move)
    ensures OnlyWoken(s.closes, AfterCancel(s, caller, move).closes)
  {
    hide HostState.EnterCancel, ObserveEnd, WokenTicket, WokenCancel;
  }

  lemma CloserTakesOrHolds(s: System, closer: nat, move: CloseMove, c: nat, figure: Cleanup)
    requires CloseEnabled(s, closer, move)
    requires
      var t := AfterClose(s, closer, move);
      c in t.closes && Brought(t.closes[c].pc, figure)
    ensures (c in s.closes && Brought(s.closes[c].pc, figure)) || TakesFigure(s, AfterClose(s, closer, move), c, figure)
  {
    hide BeginClose, Publish, WokenTicket, WokenCancel, RunningCancellers;
  }

  /**
    Every interim figure was taken by that close's own turn, at a moment when its bound had passed
    and nothing was published.
  */
  lemma {:induction false} InterimOnlyAfterTimeout(run: seq<System>, j: nat, c: nat, figure: Cleanup) returns (i: nat)
    requires Run(run) && j < |run| && c in run[j].closes && Brought(run[j].closes[c].pc, figure)
    ensures i < j && TakesFigure(run[i], run[i + 1], c, figure) && run[i].host.closing
  {
    hide Enabled, HostProtocol.Apply, TakesFigure, HostRuns.Invariant;
    assert j > 0;
    assert HostProtocol.Follows(run, j);
    var step :| Enabled(run[j - 1], step) && run[j] == HostProtocol.Apply(run[j - 1], step);
    FigureIsTakenOrHeld(run[j - 1], step, c, figure);
    if TakesFigure(run[j - 1], run[j], c, figure) {
      i := j - 1;
      HostRuns.RunKeepsInvariant(run, i);
      TakenWhileClosing(run[i], run[j], c, figure);
    } else {
      i := InterimOnlyAfterTimeout(run, j - 1, c, figure);
    }
  }

  lemma TakenWhileClosing(s: System, t: System, c: nat, figure: Cleanup)
    requires HostRuns.Invariant(s) && TakesFigure(s, t, c, figure)
    ensures s.host.closing
  {
    hide Ledger, HostCancelling.CancelsFit, HostCalls.CallsFit, HostWakeups.NoLostWakeup;
  }

  // ----- The figure and the report -----

  lemma StepPublishes(s: System, step: Step)
    requires ClosingFits(s) && Enabled(s, step)
    ensures
      var t := HostProtocol.Apply(s, step);
      && (s.host.report.Some? ==> t.publishedAt == s.publishedAt)
      && (s.host.report.None? && t.host.report.Some? ==> t.publishedAt == |s.ended|)
  {
    match step
    case TicketStep(serial, move) => TicketPublishesNothing(s, serial, move);
    case CancelStep(caller, move) => CancelPublishesNothing(s, caller, move);
    case CloseStep(closer, move) => CloserPublishes(s, closer, move);
    case _ =>
  }

  lemma TicketPublishesNothing(s: System, serial: nat, move: TicketMove)
    requires TicketEnabled(s, serial, move)
    ensures
      var t := AfterTicket(s, serial, move);
      t.publishedAt == s.publishedAt && t.host.report == s.host.report
  {
    hide WokenTicket, WokenCancel, WokenCloser;
  }

  lemma CancelPublishesNothing(s: System, caller: nat, move: CancelMove)
    requires CancelEnabled(s, caller, move)
    ensures
      var t := AfterCancel(s, caller, move);
      t.publishedAt == s.publishedAt && t.host.report == s.host.report
  {
    hide ObserveEnd, WokenTicket, WokenCancel, WokenCloser;
  }

  lemma CloserPublishes(s: System, closer: nat, move: CloseMove)
    requires ClosingFits(s) && CloseEnabled(s, closer, move)
    ensures
      var t := AfterClose(s, closer, move);
      && (s.host.report.Some? ==> t.publishedAt == s.publishedAt)
      && (s.host.report.None? && t.host.report.Some? ==> t.publishedAt == |s.ended|)
  {
    hide WokenTicket, WokenCancel, RunningCancellers;
    if move.WatchEmpty? {
      assert BeforeReport(s.closes[closer].pc);
    }
  }

  /** Publication comes between: after every end that a state without a report has seen. */
  lemma {:induction false} PublishedBetween(run: seq<System>, i: nat, j: nat)
    requires Run(run) && i <= j < |run| && run[i].host.report.None? && run[j].host.report.Some?
    ensures |run[i].ended| <= run[j].publishedAt <= |run[j].ended|
    decreases j - i
  {
    hide Enabled, HostProtocol.Apply, Ledger, HostCancelling.CancelsFit, HostCalls.CallsFit, HostWakeups.NoLostWakeup;
    HostRuns.RunKeepsInvariant(run, j - 1);
    HostRuns.RunKeepsInvariant(run, j);
    HostRuns.RunIsLater(run, i, j - 1);
    assert HostProtocol.Follows(run, j);
    var step :| Enabled(run[j - 1], step) && run[j] == HostProtocol.Apply(run[j - 1], step);
    StepPublishes(run[j - 1], step);
    if run[j - 1].host.report.Some? {
      PublishedBetween(run, i, j - 1);
    }
  }

  lemma {:induction false} PendingSplits(ended: seq<EndRecord>, early: nat)
    requires early <= |ended|
    ensures Pending(ended) == Pending(ended[..early]) + Pending(ended[early..])
  {
    var n := |ended| - 1;
    if early <= n {
      PendingSplits(ended[..n], early);
      assert ended[..n][..early] == ended[..early] && ended[..n][early..] == ended[early..][..n - early];
    } else {
      assert ended[..early] == ended;
    }
  }

  /**
    A figure taken after `early` ends is the report published after `publishedAt` of them just
    when the operations that ended in between left as many jobs as there are of them, and the report does
    not confirm what the figure could not yet.
  */
  ghost predicate FigureStands(s: System, early: nat)
    requires early <= s.publishedAt <= |s.ended|
  {
    var at := s.publishedAt;
    && Pending(s.ended[early..at]) == at - early
    && (early < at && s.host.registered == at ==> !(AnyConfirmed(s.ended[..at]) && NoneUnconfirmed(s.ended[..at])))
  }

  lemma FiguresAgreeJustWhen(ended: seq<EndRecord>, early: nat, registered: nat)
    requires early <= |ended| <= registered
    ensures ReportOf(ended[..early], registered - early) == ReportOf(ended, registered - |ended|)
       <==> && Pending(ended[early..]) == |ended| - early
            && (early < |ended| && registered == |ended| ==> !(AnyConfirmed(ended) && NoneUnconfirmed(ended)))
  {
    hide Pending, AnyConfirmed, NoneUnconfirmed;
    PendingSplits(ended, early);
    assert early == |ended| ==> ended[..early] == ended;
  }

  /** What a host without a report would answer, from its history. */
  lemma FigureFromHistory(run: seq<System>, i: nat)
    requires Run(run) && i < |run| && run[i].host.report.None?
    ensures |run[i].ended| <= run[i].host.registered
    ensures LaterReport(run[i].host) == ReportOf(run[i].ended, run[i].host.registered - |run[i].ended|)
  {
    hide HostCancelling.CancelsFit, HostCalls.CallsFit, HostWakeups.NoLostWakeup, ClosingFits, HistoryFits,
      Correspond, Run;
    HostRuns.RunKeepsInvariant(run, i);
    AggregateReports(run[i].ended, |run[i].host.live|);
  }

  lemma PublishedFromHistory(run: seq<System>, j: nat)
    requires Run(run) && j < |run| && run[j].host.report.Some?
    ensures
      var s := run[j];
      && s.publishedAt <= |s.ended| && s.publishedAt <= s.host.registered
      && s.host.report.value == ReportOf(s.ended[..s.publishedAt], s.host.registered - s.publishedAt)
  {
    hide Ledger, HostCancelling.CancelsFit, HostCalls.CallsFit, HostWakeups.NoLostWakeup, Run;
    HostRuns.RunKeepsInvariant(run, j);
  }

  /** An interim figure of a closing host is its later report under exactly that condition. */
  lemma InterimIsTheReportJustWhen(run: seq<System>, i: nat, j: nat)
    requires Run(run) && i <= j < |run| && run[i].host.closing
    requires run[i].host.report.None? && run[j].host.report.Some?
    ensures |run[i].ended| <= run[j].publishedAt <= |run[j].ended|
    ensures Some(LaterReport(run[i].host)) == run[j].host.report <==> FigureStands(run[j], |run[i].ended|)
  {
    hide Run, ReportOf, LaterReport, Pending, AnyConfirmed, NoneUnconfirmed;
    var early, at, ended := |run[i].ended|, run[j].publishedAt, run[j].ended;
    PublishedBetween(run, i, j);
    HostRuns.RunIsLater(run, i, j);
    FigureFromHistory(run, i);
    PublishedFromHistory(run, j);
    FiguresAgreeJustWhen(ended[..at], early, run[j].host.registered);
    assert ended[..at][..early] == run[i].ended && ended[..at][early..] == ended[early..at];
  }

  /** The closes that have returned to Python, in the order their reports were kept. */
  ghost predicate Returned(s: System, order: seq<nat>) {
    forall k :: 0 <= k < |order| ==> order[k] in s.closes && s.closes[order[k]].pc.Closed?
  }

  function ReportsOf(s: System, order: seq<nat>): seq<Cleanup>
    requires forall k :: 0 <= k < |order| ==> order[k] in s.closes && s.closes[order[k]].pc.Closed?
  {
    seq(|order|, k requires 0 <= k < |order| => s.closes[order[k]].pc.report)
  }

  /**
    What a client keeps is the host's one report just when the first of its closes to return
    brought back no interim figure, or one that stands; `early` is how many operations had
    ended when that figure was taken, its bound having passed before there was a report.
  */
  lemma KeptIsTheHostsReportJustWhen(run: seq<System>, j: nat, order: seq<nat>) returns (i: nat)
    requires Run(run) && j < |run| && |order| > 0 && Returned(run[j], order) && run[j].host.report.Some?
    ensures
      var first := run[j].closes[order[0]].pc;
      if first.interim then
        && i < j && TakesFigure(run[i], run[i + 1], order[0], first.report)
        && |run[i].ended| <= run[j].publishedAt <= |run[j].ended|
        && (Kept(ReportsOf(run[j], order)) == run[j].host.report <==> FigureStands(run[j], |run[i].ended|))
      else Kept(ReportsOf(run[j], order)) == run[j].host.report
  {
    hide Run, FigureStands, HostRuns.Invariant, AfterClose, CloseEnabled;
    var first := run[j].closes[order[0]].pc;
    KeptIsTheFirst(ReportsOf(run[j], order));
    i := 0;
    if first.interim {
      i := InterimOnlyAfterTimeout(run, j, order[0], first.report);
      InterimIsTheReportJustWhen(run, i, j);
    } else {
      HostRuns.RunReaches(run, j);
      HostRuns.ClosesAgree(run[j], order[0]);
    }
  }

  // ----- A run in which it is not -----

  ghost predicate Leads(s: System, step: Step, t: System) {
    Enabled(s, step) && t == HostProtocol.Apply(s, step)
  }

  lemma RunExtends(run: seq<System>, step: Step, t: System) returns (longer: seq<System>)
    requires Run(run) && Leads(run[|run| - 1], step, t)
    ensures Run(longer) && longer[|longer| - 1] == t
  {
    longer := run + [t];
    forall i | 0 < i < |longer| ensures HostProtocol.Follows(longer, i) {
      if i < |run| {
        assert HostProtocol.Follows(run, i);
      }
    }
  }

  const OPERATION: Live := Live(1, true, false, None)

  function RunningHost(closing: bool): Host {
    NEW_HOST.(live := map["op" := OPERATION.(cancelled := closing)], running := 1, registered := 1, closing := closing)
  }

  function Closing(first: ClosePc, second: ClosePc): System {
    INIT.(host := RunningHost(true), tickets := map[1 := Ticket("op", true, false, Running)],
          closes := map[0 := Closer(false, first), 1 := Closer(false, second)])
  }

  /** One operation runs when two closes begin, and the first of them is still calling cancellers. */
  lemma TwoClosesBegin() returns (run: seq<System>)
    ensures Run(run) && run[|run| - 1] == Closing(FirstAnnouncing({}), LaterWatching)
  {
    run := [INIT];
    var s1 := INIT.(host := NEW_HOST.(live := map["op" := Live(1, false, false, None)], registered := 1),
                    tickets := map[1 := Ticket("op", false, false, Fresh)]);
    run := RunExtends(run, HostProtocol.Register("op", None), s1);
    var s2 := s1.(host := RunningHost(false), tickets := map[1 := Ticket("op", true, false, Running)]);
    run := RunExtends(run, TicketStep(1, Admit), s2);
    var s3 := s2.(closes := map[0 := Closer(false, Entering)]);
    run := RunExtends(run, CloseStep(0, Begin(false)), s3);
    var s4 := s3.(host := RunningHost(true), closes := map[0 := Closer(false, FirstAnnouncing({}))]);
    assert RunningCancellers(s3.host.live) == {};
    run := RunExtends(run, CloseStep(0, EnterClose), s4);
    var s5 := s4.(closes := map[0 := Closer(false, FirstAnnouncing({})), 1 := Closer(false, Entering)]);
    run := RunExtends(run, CloseStep(1, Begin(false)), s5);
    run := RunExtends(run, CloseStep(1, EnterClose), Closing(FirstAnnouncing({}), LaterWatching));
  }

  const INTERIM: ClosePc := Closed(Cleanup(1, false), true)

  /** The second close's bound passes first, so it brings back an interim figure. */
  lemma SecondCloseReturns() returns (run: seq<System>)
    ensures Run(run) && run[|run| - 1] == Closing(FirstAnnouncing({}), INTERIM)
  {
    hide Run;
    run := TwoClosesBegin();
    run := RunExtends(run, CloseStep(1, WatchReport(true)),
                      Closing(FirstAnnouncing({}), Returning(Cleanup(1, false), true)));
    run := RunExtends(run, CloseStep(1, CheckIdle), Closing(FirstAnnouncing({}), INTERIM));
  }

  function EndedHost(): Host {
    RunningHost(true).(live := map[], running := 0, aggregate := Aggregate(1, 0, 0),
                       cancellations := [(1, Cleanup(0, true))])
  }

  function OperationEnded(first: ClosePc): System {
    Closing(first, INTERIM).(host := EndedHost(), tickets := map[1 := Ticket("op", true, true, Notifying)],
                             ended := [EndRecord(1, "op", true, true, Some(Cleanup(0, true)))])
  }

  lemma EndingLeads()
    ensures Leads(Closing(FirstAnnouncing({}), INTERIM), TicketStep(1, Finish(Some(Cleanup(0, true)))),
                  OperationEnded(FirstAnnouncing({})))
  {
    hide NotifyAll;
  }

  lemma AnnouncingLeads()
    ensures Leads(OperationEnded(FirstAnnouncing({})), CloseStep(0, NotifyClosing), OperationEnded(FirstInvoking({})))
  {
    hide EndedHost;
  }

  lemma OperationEnds() returns (run: seq<System>)
    ensures Run(run) && run[|run| - 1] == OperationEnded(FirstInvoking({}))
  {
    hide *;
    run := SecondCloseReturns();
    EndingLeads();
    AnnouncingLeads();
    run := RunExtends(run, TicketStep(1, Finish(Some(Cleanup(0, true)))), OperationEnded(FirstAnnouncing({})));
    run := RunExtends(run, CloseStep(0, NotifyClosing), OperationEnded(FirstInvoking({})));
  }

  /**
    The operation has ended with its cleanup confirmed, and the host's report says so;
    the figure the client kept of its second close never will.
  */
  lemma AnInterimFigureMayBeKept() returns (run: seq<System>)
    ensures Run(run) && Returned(run[|run| - 1], [1])
    ensures Kept(ReportsOf(run[|run| - 1], [1])) == Some(Cleanup(1, false))
    ensures run[|run| - 1].host.report == Some(Cleanup(0, true))
  {
    hide Run;
    run := OperationEnds();
    run := RunExtends(run, CloseStep(0, WatchEmpty(false)),
                      OperationEnded(FirstPublished(Cleanup(0, true)))
                        .(host := EndedHost().(report := Some(Cleanup(0, true))), publishedAt := 1));
  }
}
