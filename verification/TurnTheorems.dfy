/**
 * What the stop evidence of the Codex App Server client means to those who rely on it
 * (codex/codex-side/src/codex-app-server-client.ts:451-679 and 906-1013).
 */
module TurnTheorems {
  import opened Bridge
  import opened TurnClient
  import opened TurnEvidence

  // ---------------------------------------------------------------- what each event can touch

  /** No thread leaves, nothing is reported, and no completion arrives. */
  ghost predicate Quiet(c: Client, c': Client) {
    c.active.Keys <= c'.active.Keys && c'.reports == c.reports && c'.terminal == c.terminal
  }

  predicate IsLoud(e: Event) {
    e.ContinueResolved? || e.ContinueRejected? || e.ContinueStopped? || e.CallbackDone? || e.TurnStarted?
      || e.TurnCompleted?
  }

  /** Threads, reports and history are as they were. */
  ghost predicate Unheard(c: Client, c': Client) {
    c'.active == c.active && c'.unconfirmed == c.unconfirmed && c'.reports == c.reports && c'.terminal == c.terminal
  }

  lemma SettleUnheard(c: Client, r: RunId, stage: Stage)
    ensures Unheard(c, SettleWait(c, r, stage))
  {
  }

  lemma RemoveUnheard(c: Client, turn: TurnId)
    ensures Unheard(c, RemoveTurnWaiter(c, turn))
  {
  }

  lemma MaybeFinishQuiet(c: Client, turn: TurnId)
    ensures Unheard(c, MaybeFinish(c, turn))
  {
    hide SettleWait, RemoveTurnWaiter;
    if turn in c.turnWaiters {
      var w := c.turnWaiters[turn];
      var c1 := RemoveTurnWaiter(c, turn);
      RemoveUnheard(c, turn);
      SettleUnheard(c1, w.run, Rejected(true));
      SettleUnheard(c1, w.run, Resolved(COMPLETED));
      SettleUnheard(c, w.run, Waiting(w.strict, true));
    }
  }

  lemma BeginWaitQuiet(c: Client, r: RunId, turn: TurnId, strict: bool, aborted: bool)
    requires r in c.runs
    ensures Quiet(c, BeginWait(c, r, turn, strict, aborted))
  {
    hide MaybeFinish;
    var run := c.runs[r];
    var c1 := c.(active := c.active[run.thread := Some(turn)],
      runs := c.runs[r := run.(turn := Some(turn), stage := Waiting(strict, false))]);
    MaybeFinishQuiet(c1.(turnWaiters := c.turnWaiters[turn := TurnWaiter(run.thread, r, strict)]), turn);
  }

  lemma OnUsageQuiet(c: Client, thread: ThreadId, turn: TurnId)
    ensures Quiet(c, OnUsage(c, thread, turn))
  {
    hide MaybeFinish;
    MaybeFinishQuiet(c.(usage := c.usage[turn := thread]), turn);
  }

  lemma WaitEventsQuiet(c: Client, e: Event)
    requires Enabled(c, e) && (e.WaitAborted? || e.WaitTimedOut? || e.GraceOver? || e.StopTimedOut?)
    ensures Quiet(c, Handle(c, e))
  {
    hide SettleWait, SettleStop, RemoveTurnWaiter, Quiet;
    if e.StopTimedOut? {
      var turn := Correlated(c, c.runs[e.run]);
      var c1 := if turn.Some? then c.(stopWaiters := c.stopWaiters - {turn.value}) else c;
      SettleStopUnheard(c1, e.run, false);
      UnheardQuiet(c, c1, Handle(c, e));
    } else {
      var turn := c.runs[e.run].turn.value;
      var c1 := RemoveTurnWaiter(c, turn);
      RemoveUnheard(c, turn);
      forall stage: Stage ensures Quiet(c, SettleWait(c1, e.run, stage)) {
        SettleUnheard(c1, e.run, stage);
        UnheardQuiet(c, c1, SettleWait(c1, e.run, stage));
      }
    }
  }

  lemma SettleStopUnheard(c: Client, r: RunId, confirmed: bool)
    ensures Unheard(c, SettleStop(c, r, confirmed))
  {
  }

  lemma UnheardQuiet(c: Client, c1: Client, c': Client)
    requires Unheard(c, c1) && Unheard(c1, c')
    ensures Quiet(c, c')
  {
  }

  /** Only the end of a call and two notifications touch threads and reports. */
  lemma QuietEvents(c: Client, e: Event, c': Client)
    requires Steps(c, e, c') && !IsLoud(e)
    ensures Quiet(c, c')
  {
    hide BeginWait, OnUsage, GiveUp, SettleWait, SettleStop;
    if e.ContinueStart? {
      BeginWaitQuiet(c, e.run, c.runs[e.run].stage.answer, e.strict, e.aborted);
    } else if e.UsageUpdated? {
      OnUsageQuiet(c, e.thread, e.turn);
    } else if e.WaitAborted? || e.WaitTimedOut? || e.GraceOver? || e.StopTimedOut? {
      WaitEventsQuiet(c, e);
    }
  }

  predicate IsCurrent(c: Client, thread: ThreadId, turn: TurnId) {
    thread in c.active && c.active[thread] == Some(turn)
  }

  lemma FreeTouches(c: Client, thread: ThreadId, turn: Option<TurnId>)
    ensures var c' := Free(c, thread, turn);
      c'.active == c.active - {thread} && c'.reports == c.reports && c'.terminal == c.terminal
  {
  }

  function LateReports(c: Client, thread: ThreadId, turn: TurnId): seq<Report> {
    if turn in c.stopWaiters && c.stopWaiters[turn] == StopWaiter(thread, Late) && thread in c.active
    then [Report(thread, c.active[thread], true)] else []
  }

  lemma SettleStopQuiet(c: Client, r: RunId, confirmed: bool)
    ensures var c' := SettleStop(c, r, confirmed);
      c'.active == c.active && c'.terminal == c.terminal && c'.reports == c.reports
  {
  }

  lemma AnswerStopTouches(c: Client, thread: ThreadId, turn: TurnId)
    ensures var c' := AnswerStop(c, thread, turn);
      c'.active == c.active && c'.terminal == c.terminal && c'.reports == c.reports + LateReports(c, thread, turn)
  {
    hide SettleStop;
    if turn in c.stopWaiters && c.stopWaiters[turn].owner.ByRun? {
      SettleStopQuiet(c.(stopWaiters := c.stopWaiters - {turn}), c.stopWaiters[turn].owner.run, true);
    }
  }

  /** What a completion changes of threads and reports. */
  lemma CompletedTouches(c: Client, thread: ThreadId, turn: TurnId, status: Status)
    ensures var c', current := OnCompleted(c, thread, turn, status), IsCurrent(c, thread, turn);
      && c'.terminal == c.terminal + {(thread, turn)}
      && c'.active == (if turn !in c.retired && current
        && thread in c.unconfirmed then c.active - {thread} else c.active)
      && c'.reports == (if turn in c.retired then c.reports else
           (if current then c.reports + [Report(thread, Some(turn), true)] else c.reports)
           + (if current && thread in c.unconfirmed then [] else LateReports(c, thread, turn)))
  {
    hide MaybeFinish, AnswerStop, Free;
    if turn !in c.retired {
      var c1 := c.(terminal := c.terminal + {(thread, turn)});
      var c2 := if IsCurrent(c, thread, turn) then AddReport(c1, Report(thread, Some(turn), true)) else c1;
      if IsCurrent(c, thread, turn) && thread in c.unconfirmed {
        FreeTouches(c2, thread, Some(turn));
      } else {
        var c3 := AnswerStop(c2, thread, turn);
        AnswerStopTouches(c2, thread, turn);
        MaybeFinishQuiet(c3.(completed := c3.completed[turn := Completion(thread, status)]), turn);
      }
    }
  }

  lemma StartedTouches(c: Client, thread: ThreadId, turn: TurnId)
    ensures var c' := OnStarted(c, thread, turn);
      && c'.active.Keys == c.active.Keys && c'.terminal == c.terminal
      && (c'.reports == c.reports
          || (KnownStopped(c, thread, turn) && c'.reports == c.reports + [Report(thread, Some(turn), true)]))
  {
    if thread in c.active {
      var c1 := c.(active := c.active[thread := Some(turn)]);
      assert c1.active.Keys == c.active.Keys && c1.terminal == c.terminal && c1.reports == c.reports;
      hide KnownStopped;
    }
  }

  /** What the end of a call reports, if it reports at all. */
  function CallReport(c: Client, r: RunId): Report
    requires r in c.runs
  {
    Report(c.runs[r].thread, Correlated(c, c.runs[r]), c.runs[r].requested)
  }

  lemma DeclareTouches(c: Client, r: RunId)
    requires r in c.runs
    ensures var c' := DeclareStopped(c, r);
      c'.active == c.active && c'.terminal == c.terminal && c'.reports == c.reports + [CallReport(c, r)]
    ensures Quiet(c, DeclareUnconfirmed(c, r)) && Quiet(c, Interrupt(c, r))
  {
  }

  lemma FinallyTouches(c: Client, r: RunId)
    requires r in c.runs
    ensures var c' := Finally(c, r);
      && c'.terminal == c.terminal && c'.reports == c.reports
      && c'.active == if c.runs[r].stopped then c.active - {c.runs[r].thread} else c.active
  {
    hide Free;
    FreeTouches(SetStage(c, r, Returned), c.runs[r].thread, Correlated(c, c.runs[r]));
  }

  /** Whether the catch block of this call declares the runtime stopped in this step. */
  predicate Declares(c: Client, e: Event)
    requires Enabled(c, e)
  {
    || (e.ContinueResolved? && e.throws)
    || (e.ContinueRejected? && c.runs[e.run].stage.confirmed)
    || (e.ContinueStopped? && c.runs[e.run].stage.confirmed)
  }

  /** Whether the finally block of this call frees its thread in this step. */
  predicate Finishes(c: Client, e: Event)
    requires Enabled(c, e)
  {
    (e.ContinueResolved? && !e.throws) || (e.CallbackDone? && c.runs[e.run].stopped)
  }

  lemma CallTouches(c: Client, e: Event, c': Client)
    requires Steps(c, e, c') && (e.ContinueResolved? || e.ContinueRejected? || e.ContinueStopped? || e.CallbackDone?)
    ensures c'.terminal == c.terminal
    ensures c'.reports == if Declares(c, e) then c.reports + [CallReport(c, e.run)] else c.reports
    ensures c'.active.Keys >= if Finishes(c, e) then c.active.Keys - {c.runs[e.run].thread} else c.active.Keys
  {
    hide DeclareStopped, DeclareUnconfirmed, Interrupt, Finally;
    DeclareTouches(c, e.run);
    FinallyTouches(c, e.run);
    if e.ContinueResolved? {
      var run := c.runs[e.run];
      FinallyTouches(c.(runs := c.runs[e.run := run.(stopped := true, correlated := Correlated(c, run))]), e.run);
    }
  }

  // ---------------------------------------------------------------- threads

  /** A thread becomes free only on evidence for its turn, or by a call that never asked for a turn. */
  lemma FreedOnlyWithEvidence(c: Client, e: Event, c': Client, thread: ThreadId)
    requires Inv(c) && Steps(c, e, c') && thread in c.active && thread !in c'.active
    ensures Evidence(c', thread, c.active[thread])
      || (e.CallbackDone? && c.runs[e.run].thread == thread && !c.runs[e.run].requested)
  {
    if e.TurnCompleted? {
      CompletedTouches(c, e.thread, e.turn, e.status);
      hide OnCompleted, Inv;
    } else if IsLoud(e) {
      LoudCallFrees(c, e, c', thread);
    } else {
      QuietEvents(c, e, c');
      hide Handle, Inv;
    }
  }

  lemma LoudCallFrees(c: Client, e: Event, c': Client, thread: ThreadId)
    requires Inv(c) && Steps(c, e, c') && thread in c.active && thread !in c'.active && IsLoud(e) && !e.TurnCompleted?
    ensures (e.CallbackDone? || e.ContinueResolved?) && c.runs[e.run].thread == thread && thread !in c.unconfirmed
    ensures Evidence(c', thread, c.active[thread]) || (e.CallbackDone? && !c.runs[e.run].requested)
  {
    hide OnStarted, AfterResolved, DeclareStopped, DeclareUnconfirmed, Interrupt, Finally;
    if e.TurnStarted? {
      StartedTouches(c, e.thread, e.turn);
    } else {
      CallTouches(c, e, c');
      assert RunOk(c, e.run);
      hide Inv, Handle;
    }
  }

  /** The completion of the very turn that an unconfirmed thread was last known to run, not retired meanwhile. */
  ghost predicate FreesUnconfirmed(c: Client, e: Event, thread: ThreadId) {
    && e.TurnCompleted? && e.thread == thread && thread in c.unconfirmed
    && thread in c.active && c.active[thread] == Some(e.turn)
    && !Ignored(c, e.envelope) && e.turn !in c.retired
  }

  /** A thread given up as unconfirmed becomes free exactly on that completion, whatever else happens. */
  lemma UnconfirmedFreedExactly(c: Client, e: Event, c': Client, thread: ThreadId)
    requires Inv(c) && Steps(c, e, c') && thread in c.unconfirmed
    ensures thread !in c'.active <==> FreesUnconfirmed(c, e, thread)
  {
    if e.TurnCompleted? {
      CompletedTouches(c, e.thread, e.turn, e.status);
      assert thread in c.active;
      hide OnCompleted, Inv;
    } else {
      assert thread in c.active;
      if thread !in c'.active {
        hide Handle, Inv;
        if IsLoud(e) { LoudCallFrees(c, e, c', thread); } else { QuietEvents(c, e, c'); }
      }
    }
  }

  /** In every reachable state at most one call holds a thread, and an unconfirmed thread admits no call at all. */
  lemma OneCallPerThread(states: seq<Client>, events: seq<Event>, n: nat, r: RunId, q: RunId)
    requires History(states, events) && n < |states|
    requires r in states[n].runs && q in states[n].runs && Holding(states[n].runs[r]) && Holding(states[n].runs[q])
    requires states[n].runs[r].thread == states[n].runs[q].thread
    ensures r == q
    ensures states[n].runs[r].thread !in states[n].unconfirmed
    ensures forall s :: !Enabled(states[n], Call(s, states[n].runs[r].thread))
  {
    HistoryKeepsInv(states, events, n);
    assert RunOk(states[n], r);
  }

  lemma UnconfirmedAdmitsNoCall(states: seq<Client>, events: seq<Event>, n: nat, thread: ThreadId, r: RunId)
    requires History(states, events) && n < |states| && thread in states[n].unconfirmed
    ensures !Enabled(states[n], Call(r, thread))
  {
    HistoryKeepsInv(states, events, n);
  }

  // ---------------------------------------------------------------- what a call tells its caller

  /** A call that says the runtime stopped, having asked for a turn, has seen that turn end on that thread. */
  lemma StoppedMeansEnded(states: seq<Client>, events: seq<Event>, n: nat, r: RunId)
    requires History(states, events) && n < |states| && r in states[n].runs
    requires states[n].runs[r].stopped && states[n].runs[r].requested
    ensures var run := states[n].runs[r];
      && run.correlated.Some? && (run.turn.Some? ==> run.correlated == run.turn)
      && CompletedBy(events, n, run.thread, run.correlated.value)
  {
    HistoryKeepsInv(states, events, n);
    assert RunOk(states[n], r);
    TerminalHasEvent(states, events, n, states[n].runs[r].thread, states[n].runs[r].correlated.value);
  }

  /** One of the first n events is a terminal completion of the turn on the thread. */
  ghost predicate CompletedBy(events: seq<Event>, n: nat, thread: ThreadId, turn: TurnId) {
    exists i :: 0 <= i < n <= |events| && events[i].TurnCompleted? && events[i].thread == thread
      && events[i].turn == turn
  }

  lemma TerminalGrows(c: Client, e: Event, c': Client)
    requires Steps(c, e, c')
    ensures c'.terminal == c.terminal + (if e.TurnCompleted? then {(e.thread, e.turn)} else {})
  {
    if e.TurnCompleted? {
      CompletedTouches(c, e.thread, e.turn, e.status);
      hide OnCompleted;
    } else if e.TurnStarted? {
      StartedTouches(c, e.thread, e.turn);
      hide OnStarted;
    } else {
      hide Handle;
      if IsLoud(e) { CallTouches(c, e, c'); } else { QuietEvents(c, e, c'); }
    }
  }

  lemma {:induction false} TerminalHasEvent(states: seq<Client>, events: seq<Event>, n: nat, thread: ThreadId,
      turn: TurnId)
    requires History(states, events) && n < |states|
    ensures (thread, turn) in states[n].terminal <==> CompletedBy(events, n, thread, turn)
  {
    hide Steps;
    if n > 0 {
      TerminalHasEvent(states, events, n - 1, thread, turn);
      assert Steps(states[n - 1], events[n - 1], states[n - 1 + 1]);
      TerminalGrows(states[n - 1], events[n - 1], states[n]);
    }
  }

  /**
   * In every history: a thread is freed after a terminal completion of its turn, or by a call that never asked for one.
   */
  lemma FreedAfterCompletion(states: seq<Client>, events: seq<Event>, n: nat, thread: ThreadId)
    requires History(states, events) && n < |events| && thread in states[n].active && thread !in states[n + 1].active
    ensures (states[n].active[thread].Some? && CompletedBy(events, n + 1, thread, states[n].active[thread].value))
      || (events[n].CallbackDone? && Enabled(states[n], events[n])
          && states[n].runs[events[n].run].thread == thread && !states[n].runs[events[n].run].requested)
  {
    HistoryKeepsInv(states, events, n);
    assert Steps(states[n], events[n], states[n + 1]);
    hide Inv, Handle;
    FreedOnlyWithEvidence(states[n], events[n], states[n + 1], thread);
    if states[n].active[thread].Some? {
      TerminalHasEvent(states, events, n + 1, thread, states[n].active[thread].value);
    }
  }

  // ---------------------------------------------------------------- callbacks

  /** The report speaks about a turn that has ended, or about a call that never asked for one. */
  ghost predicate Sound(c: Client, report: Report) {
    report.requested ==> Evidence(c, report.thread, report.turn)
  }

  /** A completion that arrives again, for a turn no longer current, while a late interrupt still waits for it. */
  ghost predicate StaleCompletion(c: Client, e: Event) {
    && e.TurnCompleted? && !Ignored(c, e.envelope) && e.turn !in c.retired
    && e.turn in c.stopWaiters && c.stopWaiters[e.turn] == StopWaiter(e.thread, Late)
    && e.thread in c.active && c.active[e.thread] != Some(e.turn) && !Evidence(c, e.thread, c.active[e.thread])
  }

  /** The reports a step adds. */
  ghost predicate AddsOnlySound(c: Client, c': Client) {
    && |c.reports| <= |c'.reports| && c'.reports[..|c.reports|] == c.reports
    && forall i :: |c.reports| <= i < |c'.reports| ==> Sound(c', c'.reports[i])
  }

  /** Every callback with "stopped" is sound, except exactly the one a stale completion provokes. */
  lemma ReportsExact(c: Client, e: Event, c': Client)
    requires Inv(c) && Steps(c, e, c')
    ensures AddsOnlySound(c, c') <==> !StaleCompletion(c, e)
  {
    hide Inv, Steps, Handle, AddsOnlySound;
    if e.TurnCompleted? {
      CompletedReports(c, e, c');
    } else if e.TurnStarted? {
      StartedReports(c, e, c');
    } else if IsLoud(e) {
      CallReports(c, e, c');
    } else {
      QuietEvents(c, e, c');
      QuietAddsNothing(c, c');
    }
  }

  lemma QuietAddsNothing(c: Client, c': Client)
    requires Quiet(c, c')
    ensures AddsOnlySound(c, c')
  {
  }

  lemma StartedReports(c: Client, e: Event, c': Client)
    requires Inv(c) && Steps(c, e, c') && e.TurnStarted?
    ensures AddsOnlySound(c, c')
  {
    StartedTouches(c, e.thread, e.turn);
    hide RunOk, OnStarted;
  }

  lemma CallReports(c: Client, e: Event, c': Client)
    requires Inv(c) && Steps(c, e, c')
      && (e.ContinueResolved? || e.ContinueRejected? || e.ContinueStopped? || e.CallbackDone?)
    ensures AddsOnlySound(c, c')
  {
    CallTouches(c, e, c');
    assert RunOk(c, e.run);
    hide Inv, Handle;
  }

  /** Without a stale completion the reports are about this turn, or about one that has its evidence. */
  lemma CompletedSound(c: Client, e: Event, c': Client)
    requires Steps(c, e, c') && e.TurnCompleted? && !StaleCompletion(c, e)
    ensures AddsOnlySound(c, c')
  {
    CompletedTouches(c, e.thread, e.turn, e.status);
    hide OnCompleted;
  }

  lemma CompletedReports(c: Client, e: Event, c': Client)
    requires Steps(c, e, c') && e.TurnCompleted?
    ensures AddsOnlySound(c, c') <==> !StaleCompletion(c, e)
  {
    CompletedTouches(c, e.thread, e.turn, e.status);
    hide OnCompleted;
    if StaleCompletion(c, e) {
      assert !Sound(c', c'.reports[|c.reports|]);
    } else {
      hide StaleCompletion;
      CompletedSound(c, e, c');
    }
  }

  /** A stale completion is a repeated one. */
  lemma StaleIsRepeated(c: Client, e: Event)
    requires Inv(c) && StaleCompletion(c, e)
    ensures (e.thread, e.turn) in c.terminal
  {
    assert StopOk(c, e.turn);
  }

  /** The server completes each turn of a thread at most once. */
  ghost predicate CompletesOnce(events: seq<Event>) {
    forall i, j :: 0 <= i < j < |events| && events[i].TurnCompleted? && events[j].TurnCompleted? ==>
      (events[i].thread, events[i].turn) != (events[j].thread, events[j].turn)
  }

  /** If the server completes no turn twice, every callback with "stopped" in every run is sound. */
  lemma {:induction false} AllReportsSound(states: seq<Client>, events: seq<Event>, n: nat)
    requires History(states, events) && n < |states| && CompletesOnce(events)
    ensures forall i :: 0 <= i < |states[n].reports| ==> Sound(states[n], states[n].reports[i])
  {
    hide Steps, Inv, StaleCompletion;
    if n > 0 {
      var c, e, c' := states[n - 1], events[n - 1], states[n];
      AllReportsSound(states, events, n - 1);
      HistoryKeepsInv(states, events, n - 1);
      assert Steps(states[n - 1], events[n - 1], states[n - 1 + 1]);
      if StaleCompletion(c, e) {
        StaleIsRepeated(c, e);
        StaleIsCompletion(c, e);
        TerminalHasEvent(states, events, n - 1, e.thread, e.turn);
      }
      ReportsExact(c, e, c');
      TerminalGrows(c, e, c');
      forall i | 0 <= i < |c.reports| ensures Sound(c', c'.reports[i]) {
        assert c'.reports[i] == c'.reports[..|c.reports|][i];
      }
    }
  }

  lemma StaleIsCompletion(c: Client, e: Event)
    requires StaleCompletion(c, e)
    ensures e.TurnCompleted?
  {
  }
}
