/**
 * What single handlers of the Codex App Server client mean for the calls and threads they touch
 * (codex/codex-side/src/codex-app-server-client.ts:556-679 and 906-1013).
 */
module TurnHandlers {
  import opened Bridge
  import opened TurnClient
  import opened TurnEvidence

  // ---------------------------------------------------------------- retired turns

  ghost predicate RetiredBounded(c: Client) {
    |c.retired| <= RETIRED_LIMIT && forall i, j :: 0 <= i < j < |c.retired| ==> c.retired[i] != c.retired[j]
  }

  /** A retired turn is remembered, within the bound, and every later notification about it is ignored. */
  lemma RetiredIsIgnored(c: Client, turn: TurnId, thread: ThreadId, status: Status)
    requires RetiredBounded(c)
    ensures var c' := Retire(c, turn);
      && RetiredBounded(c') && turn in c'.retired
      && (forall t :: t in c.retired && |c.retired| < RETIRED_LIMIT ==> t in c'.retired)
      && OnStarted(c', thread, turn) == c' && OnUsage(c', thread, turn) == c'
      && OnCompleted(c', thread, turn, status) == c'.(terminal := c'.terminal + {(thread, turn)})
  {
    hide OnUsage, MaybeFinish, AnswerStop;
    var kept := if turn in c.retired then c.retired else c.retired + [turn];
    var c' := Retire(c, turn);
    if |kept| > RETIRED_LIMIT {
      assert kept[1..][|kept| - 2] == turn;
    } else if turn !in c.retired {
      assert kept[|kept| - 1] == turn;
    }
    UsageIgnored(c', thread, turn);
  }

  lemma UsageIgnored(c: Client, thread: ThreadId, turn: TurnId)
    requires turn in c.retired
    ensures OnUsage(c, thread, turn) == c
  {
  }

  // ---------------------------------------------------------------- interrupts

  /** Settling a turn's wait does not touch a call that waits for an interrupt. */
  lemma FinishSparesInterrupts(c: Client, turn: TurnId, r: RunId)
    requires r in c.runs && !c.runs[r].stage.Waiting?
    ensures r in MaybeFinish(c, turn).runs && MaybeFinish(c, turn).runs[r] == c.runs[r]
  {
    hide SettleWait, RemoveTurnWaiter;
    if turn in c.turnWaiters {
      var w, c1 := c.turnWaiters[turn], RemoveTurnWaiter(c, turn);
      RemoveSpares(c, turn);
      SettleSpares(c1, w.run, Rejected(true), r);
      SettleSpares(c1, w.run, Resolved(COMPLETED), r);
      SettleSpares(c, w.run, Waiting(w.strict, true), r);
    }
  }

  lemma RemoveSpares(c: Client, turn: TurnId)
    ensures RemoveTurnWaiter(c, turn).runs == c.runs
  {
  }

  lemma SettleSpares(c: Client, settled: RunId, stage: Stage, r: RunId)
    requires r in c.runs && !c.runs[r].stage.Waiting?
    ensures r in SettleWait(c, settled, stage).runs && SettleWait(c, settled, stage).runs[r] == c.runs[r]
  {
  }

  /** A stop waiter of this call is registered for the turn. */
  ghost predicate AwaitsStop(c: Client, r: RunId, thread: ThreadId, turn: TurnId) {
    && r in c.runs && c.runs[r].stage.Interrupting? && c.runs[r].thread == thread
    && turn in c.stopWaiters && c.stopWaiters[turn] == StopWaiter(thread, ByRun(r))
  }

  /** The client after the report of a completion, before its waiters are served. */
  function Noted(c: Client, thread: ThreadId, turn: TurnId): Client {
    var c1 := c.(terminal := c.terminal + {(thread, turn)});
    if thread in c.active && c.active[thread] == Some(turn) then AddReport(c1, Report(thread, Some(turn), true)) else c1
  }

  function Recorded(c: Client, thread: ThreadId, turn: TurnId, status: Status): Client {
    c.(completed := c.completed[turn := Completion(thread, status)])
  }

  lemma CompletedShape(c: Client, thread: ThreadId, turn: TurnId, status: Status)
    requires turn !in c.retired
    ensures OnCompleted(c, thread, turn, status) ==
      if thread in c.active && c.active[thread] == Some(turn)
        && thread in c.unconfirmed then Free(Noted(c, thread, turn), thread, Some(turn))
      else MaybeFinish(Recorded(AnswerStop(Noted(c, thread, turn), thread, turn), thread, turn, status), turn)
  {
    hide MaybeFinish, AnswerStop, Free;
  }

  /** Under the invariant no other turn's waiter belongs to the call. */
  lemma OwnWaiterOnly(c: Client, r: RunId, thread: ThreadId, turn: TurnId, other: TurnId)
    requires Inv(c) && AwaitsStop(c, r, thread, turn) && other in c.stopWaiters
      && c.stopWaiters[other].owner == ByRun(r)
    ensures other == turn
  {
    assert StopOk(c, turn) && StopOk(c, other);
  }

  lemma OtherStops(c: Client, c1: Client, r: RunId, thread: ThreadId, turn: TurnId, onThread: ThreadId,
      completed: TurnId)
    requires Inv(c) && AwaitsStop(c, r, thread, turn)
    requires c1.runs == c.runs && c1.stopWaiters == c.stopWaiters
    ensures r in AnswerStop(c1, onThread, completed).runs && !AnswerStop(c1, onThread, completed).runs[r].stage.Waiting?
    ensures AnswerStop(c1, onThread, completed).runs[r].stage == Answered(true) <==>
      onThread == thread && completed == turn
  {
    hide Inv;
    var c2 := c1.(stopWaiters := c1.stopWaiters - {completed});
    assert c2.runs == c.runs;
    if completed in c.stopWaiters && c.stopWaiters[completed].owner == ByRun(r) {
      OwnWaiterOnly(c, r, thread, turn, completed);
    }
  }

  lemma FreeSparesRuns(c: Client, thread: ThreadId, turn: Option<TurnId>)
    ensures Free(c, thread, turn).runs == c.runs
  {
  }

  lemma ReportSpares(c: Client, report: Report)
    ensures AddReport(c, report).runs == c.runs && AddReport(c, report).stopWaiters == c.stopWaiters
  {
  }

  lemma NotedSpares(c: Client, thread: ThreadId, turn: TurnId)
    ensures Noted(c, thread, turn).runs == c.runs && Noted(c, thread, turn).stopWaiters == c.stopWaiters
  {
    hide AddReport;
    ReportSpares(c.(terminal := c.terminal + {(thread, turn)}), Report(thread, Some(turn), true));
  }

  lemma RecordedSpares(c: Client, thread: ThreadId, turn: TurnId, status: Status)
    ensures Recorded(c, thread, turn, status).runs == c.runs
  {
  }

  /** While the call waits, exactly the completion of its turn on its thread answers that the runtime stopped. */
  lemma WaitIsAnswered(c: Client, r: RunId, thread: ThreadId, turn: TurnId, onThread: ThreadId, completed: TurnId,
      status: Status)
    requires Inv(c) && AwaitsStop(c, r, thread, turn) && completed !in c.retired
    ensures var c' := OnCompleted(c, onThread, completed, status);
      r in c'.runs && (c'.runs[r].stage == Answered(true) <==> onThread == thread && completed == turn)
  {
    var c1 := Noted(c, onThread, completed);
    var c2 := AnswerStop(c1, onThread, completed);
    hide Inv, RunOk, MaybeFinish, Free, OnCompleted, AnswerStop, Noted, Recorded;
    NotWatched(c, onThread, completed, thread, r);
    CompletedShape(c, onThread, completed, status);
    NotedSpares(c, onThread, completed);
    OtherStops(c, c1, r, thread, turn, onThread, completed);
    RecordedSpares(c2, onThread, completed, status);
    FinishSparesInterrupts(Recorded(c2, onThread, completed, status), completed, r);
    FreeSparesRuns(c1, onThread, Some(completed));
  }

  /** A call that waits for an interrupt holds its thread, which is then not unconfirmed. */
  lemma NotWatched(c: Client, onThread: ThreadId, completed: TurnId, thread: ThreadId, r: RunId)
    requires Inv(c) && r in c.runs && c.runs[r].stage.Interrupting? && c.runs[r].thread == thread
    ensures thread !in c.unconfirmed && Correlated(c, c.runs[r]).Some?
  {
    assert RunOk(c, r);
  }

  /** An answer that has been given is not taken back. */
  lemma AnswerStands(c: Client, r: RunId, onThread: ThreadId, completed: TurnId, status: Status)
    requires r in c.runs && c.runs[r].stage.Answered? && completed !in c.retired
    ensures r in OnCompleted(c, onThread, completed, status).runs
    ensures OnCompleted(c, onThread, completed, status).runs[r] == c.runs[r]
  {
    var c1 := Noted(c, onThread, completed);
    var c2 := AnswerStop(c1, onThread, completed);
    hide MaybeFinish, Free, OnCompleted, AnswerStop, Noted, Recorded;
    CompletedShape(c, onThread, completed, status);
    NotedSpares(c, onThread, completed);
    AnswerSpares(c1, r, onThread, completed);
    RecordedSpares(c2, onThread, completed, status);
    FinishSparesInterrupts(Recorded(c2, onThread, completed, status), completed, r);
    FreeSparesRuns(c1, onThread, Some(completed));
  }

  lemma AnswerSpares(c: Client, r: RunId, thread: ThreadId, turn: TurnId)
    requires r in c.runs && !c.runs[r].stage.Interrupting?
    ensures r in AnswerStop(c, thread, turn).runs && AnswerStop(c, thread, turn).runs[r] == c.runs[r]
  {
    hide SettleStop, AddReport;
    if turn in c.stopWaiters {
      var c1 := c.(stopWaiters := c.stopWaiters - {turn});
      if c.stopWaiters[turn].owner.ByRun? { StopSpares(c1, c.stopWaiters[turn].owner.run, r); }
      if thread in c.active { ReportSpares(c1, Report(thread, c.active[thread], true)); }
    }
  }

  lemma StopSpares(c: Client, settled: RunId, r: RunId)
    requires r in c.runs && !c.runs[r].stage.Interrupting?
    ensures r in SettleStop(c, settled, true).runs && SettleStop(c, settled, true).runs[r] == c.runs[r]
  {
  }

  lemma InterruptWaits(c: Client, r: RunId, turn: TurnId)
    requires r in c.runs && Correlated(c, c.runs[r]) == Some(turn)
    ensures var c1, thread := Interrupt(c, r), c.runs[r].thread;
      && c1.retired == c.retired && r in c1.runs
      && if KnownStopped(c, thread, turn) then c1.runs[r].stage == Answered(true) else AwaitsStop(c1, r, thread, turn)
  {
  }

  lemma LossAnswers(c: Client, r: RunId, thread: ThreadId, turn: TurnId)
    requires r in c.runs && (c.runs[r].stage == Answered(true) || AwaitsStop(c, r, thread, turn))
    ensures RejectAll(c).runs[r].stage == Answered(c.runs[r].stage.Answered?)
  {
    if AwaitsStop(c, r, thread, turn) {
      assert r in StoppingRuns(c.stopWaiters) by { assert c.stopWaiters[turn].owner == ByRun(r); }
    }
  }

  /**
   * A call that interrupts its turn and then sees one completion is told that the runtime stopped exactly if the
   * completion of this turn on this thread was known already, or is the one that arrives; if the connection is lost
   * first, exactly if it was known already.
   */
  lemma InterruptIsAnswered(c: Client, r: RunId, turn: TurnId, onThread: ThreadId, completed: TurnId, status: Status)
    requires Inv(c) && r in c.runs && c.runs[r].stage.Rejected? && Correlated(c, c.runs[r]) == Some(turn)
      && completed !in c.retired
    ensures var c', thread := OnCompleted(Interrupt(c, r), onThread, completed, status), c.runs[r].thread;
      r in c'.runs
      && (c'.runs[r].stage == Answered(true) <==>
        KnownStopped(c, thread, turn) || (onThread == thread && completed == turn))
    ensures RejectAll(Interrupt(c, r)).runs[r].stage == Answered(KnownStopped(c, c.runs[r].thread, turn))
  {
    var c1, thread := Interrupt(c, r), c.runs[r].thread;
    hide Inv, Interrupt, OnCompleted, RejectAll;
    InterruptKeeps(c, r);
    InterruptWaits(c, r, turn);
    LossAnswers(c1, r, thread, turn);
    if KnownStopped(c, thread, turn) {
      AnswerStands(c1, r, onThread, completed, status);
    } else {
      WaitIsAnswered(c1, r, thread, turn, onThread, completed, status);
    }
  }

  // ---------------------------------------------------------------- late starts

  /** The thread was given up as unconfirmed before any turn was seen to start on it. */
  ghost predicate GivenUpUnseen(c: Client, thread: ThreadId, turn: TurnId) {
    && thread in c.unconfirmed && thread in c.active && c.active[thread].None?
    && turn !in c.retired && turn !in c.completed && turn !in c.turnWaiters && turn !in c.stopWaiters
  }

  /** Notifications that these turns started on the thread, one after the other. */
  function Starts(c: Client, thread: ThreadId, turns: seq<TurnId>): Client
    decreases |turns|
  {
    if turns == [] then c else Starts(OnStarted(c, thread, turns[0]), thread, turns[1..])
  }

  /** The turn that a thread is known to run is never replaced by a notification. */
  lemma {:induction false} OtherStartsChangeNothing(c: Client, thread: ThreadId, turn: TurnId, others: seq<TurnId>)
    requires thread in c.active && c.active[thread] == Some(turn) && thread in c.unconfirmed
      && !KnownStopped(c, thread, turn)
    requires turn in c.stopWaiters && c.stopWaiters[turn] == StopWaiter(thread, Late)
    ensures Starts(c, thread, others) == c
    decreases |others|
  {
    if others != [] {
      assert c.active[thread := Some(turn)] == c.active;
      assert c.stopWaiters[turn := StopWaiter(thread, Late)] == c.stopWaiters;
      assert OnStarted(c, thread, others[0]) == c;
      OtherStartsChangeNothing(c, thread, turn, others[1..]);
    }
  }

  /**
   * A late start, any other starts announced on the thread, then the completion of the first: the others are ignored,
   * the thread is reported once and becomes free.
   */
  lemma StartThenCompletion(c: Client, thread: ThreadId, turn: TurnId, others: seq<TurnId>, status: Status)
    requires GivenUpUnseen(c, thread, turn)
    ensures var c' := OnCompleted(Starts(c, thread, [turn] + others), thread, turn, status);
      thread !in c'.active && thread !in c'.unconfirmed && c'.reports == c.reports + [Report(thread, Some(turn), true)]
  {
    hide MaybeFinish, AnswerStop;
    var c1 := OnStarted(c, thread, turn);
    assert ([turn] + others)[0] == turn && ([turn] + others)[1..] == others;
    OtherStartsChangeNothing(c1, thread, turn, others);
  }

  /** In the other order it is reported all the same, but stays occupied: only another completion could free it. */
  lemma CompletionThenStart(c: Client, thread: ThreadId, turn: TurnId, status: Status)
    requires GivenUpUnseen(c, thread, turn)
    ensures var c' := OnStarted(OnCompleted(c, thread, turn, status), thread, turn);
      && thread in c'.unconfirmed && thread in c'.active && c'.active[thread] == Some(turn)
      && c'.reports == c.reports + [Report(thread, Some(turn), true)]
  {
  }

  // ---------------------------------------------------------------- usage and completion

  /** A call waits for the turn, of which nothing has been heard yet. */
  ghost predicate AwaitsTurn(c: Client, r: RunId, thread: ThreadId, turn: TurnId) {
    && r in c.runs && c.runs[r].stage.Waiting? && turn in c.turnWaiters
    && c.turnWaiters[turn].thread == thread && c.turnWaiters[turn].run == r
    && turn !in c.completed && turn !in c.usage && turn !in c.retired && turn !in c.stopWaiters
      && thread !in c.unconfirmed
  }

  lemma Unanswered(c: Client, thread: ThreadId, turn: TurnId)
    requires turn !in c.stopWaiters
    ensures AnswerStop(c, thread, turn) == c
  {
  }

  /** The completion is kept, and the wait goes on until usage arrives or its timer ends. */
  lemma CompletionKept(c: Client, r: RunId, thread: ThreadId, turn: TurnId)
    requires AwaitsTurn(c, r, thread, turn)
    ensures var c' := OnCompleted(c, thread, turn, COMPLETED);
      && r in c'.runs && c'.runs[r].stage.Waiting? && c'.turnWaiters == c.turnWaiters && c'.retired == c.retired
        && c'.usage == c.usage
      && turn in c'.completed && c'.completed[turn] == Completion(thread, COMPLETED)
  {
    CompletedShape(c, thread, turn, COMPLETED);
    Unanswered(Noted(c, thread, turn), thread, turn);
    var c1 := Recorded(Noted(c, thread, turn), thread, turn, COMPLETED);
    hide OnCompleted, AnswerStop, Free, MaybeFinish;
    GraceOnly(c1, r, turn);
  }

  lemma GraceOnly(c: Client, r: RunId, turn: TurnId)
    requires r in c.runs && c.runs[r].stage.Waiting? && turn in c.turnWaiters && c.turnWaiters[turn].run == r
    requires turn in c.completed && c.completed[turn].status == COMPLETED && turn !in c.usage
    ensures var c' := MaybeFinish(c, turn);
      && c' == c.(runs := c'.runs) && r in c'.runs && c'.runs[r].stage.Waiting?
  {
  }

  lemma UsageResolves(c: Client, r: RunId, thread: ThreadId, turn: TurnId)
    requires r in c.runs && c.runs[r].stage.Waiting? && turn in c.turnWaiters && turn !in c.retired
    requires c.turnWaiters[turn].thread == thread && c.turnWaiters[turn].run == r
    requires turn in c.completed && c.completed[turn] == Completion(thread, COMPLETED)
    ensures r in OnUsage(c, thread, turn).runs && OnUsage(c, thread, turn).runs[r].stage == Resolved(COMPLETED)
  {
  }

  lemma UsageKept(c: Client, r: RunId, thread: ThreadId, turn: TurnId)
    requires AwaitsTurn(c, r, thread, turn)
    ensures OnUsage(c, thread, turn) == c.(usage := c.usage[turn := thread])
  {
  }

  lemma CompletionResolves(c: Client, r: RunId, thread: ThreadId, turn: TurnId)
    requires r in c.runs && c.runs[r].stage.Waiting? && turn in c.turnWaiters && turn !in c.retired
      && turn !in c.stopWaiters
    requires c.turnWaiters[turn].thread == thread && c.turnWaiters[turn].run == r && thread !in c.unconfirmed
    requires turn in c.usage && c.usage[turn] == thread
    ensures var c' := OnCompleted(c, thread, turn, COMPLETED); r in c'.runs && c'.runs[r].stage == Resolved(COMPLETED)
  {
    hide OnCompleted, AnswerStop, Free, MaybeFinish;
    CompletedShape(c, thread, turn, COMPLETED);
    Unanswered(Noted(c, thread, turn), thread, turn);
    KnownUsageResolves(Recorded(Noted(c, thread, turn), thread, turn, COMPLETED), r, thread, turn);
  }

  lemma KnownUsageResolves(c: Client, r: RunId, thread: ThreadId, turn: TurnId)
    requires r in c.runs && c.runs[r].stage.Waiting? && turn in c.turnWaiters
    requires c.turnWaiters[turn].thread == thread && c.turnWaiters[turn].run == r
    requires turn in c.completed && c.completed[turn] == Completion(thread, COMPLETED)
    requires turn in c.usage && c.usage[turn] == thread
    ensures r in MaybeFinish(c, turn).runs && MaybeFinish(c, turn).runs[r].stage == Resolved(COMPLETED)
  {
  }

  /** Usage that another thread reported for the turn neither resolves nor ends the wait. */
  lemma ForeignUsage(c: Client, turn: TurnId)
    requires turn in c.turnWaiters && turn in c.completed && turn in c.usage
    requires c.completed[turn] == Completion(c.turnWaiters[turn].thread, COMPLETED)
    requires c.usage[turn] != c.turnWaiters[turn].thread
    ensures MaybeFinish(c, turn) == c
  {
  }

  /** Usage and completion may arrive in either order: the call resolves as completed. */
  lemma UsageInEitherOrder(c: Client, r: RunId, thread: ThreadId, turn: TurnId)
    requires AwaitsTurn(c, r, thread, turn)
    ensures var c' := OnUsage(OnCompleted(c, thread, turn, COMPLETED), thread, turn);
      r in c'.runs && c'.runs[r].stage == Resolved(COMPLETED)
    ensures var c' := OnCompleted(OnUsage(c, thread, turn), thread, turn, COMPLETED);
      r in c'.runs && c'.runs[r].stage == Resolved(COMPLETED)
  {
    hide OnUsage, OnCompleted;
    CompletionKept(c, r, thread, turn);
    UsageResolves(OnCompleted(c, thread, turn, COMPLETED), r, thread, turn);
    UsageKept(c, r, thread, turn);
    CompletionResolves(OnUsage(c, thread, turn), r, thread, turn);
  }
}
