/**
 * Whole calls of `runTurn`,
   event by event (codex/codex-side/src/codex-app-server-client.ts:451-679 and 906-1013): what a
 * call leaves behind when nothing else happens, however it ends. Everything else is as it was.
 */
module TurnCalls {
  import opened Bridge
  import opened TurnClient
  import opened TurnHandlers

  /** The client after these events, if each can occur. */
  function Played(c: Client, events: seq<Event>): Option<Client>
    decreases |events|
  {
    if events == [] then Some(c)
    else if !Enabled(c, events[0]) then None
    else Played(Handle(c, events[0]), events[1..])
  }

  lemma PlayOne(c: Client, e: Event, rest: seq<Event>)
    requires Enabled(c, e)
    ensures Played(c, [e] + rest) == Played(Handle(c, e), rest)
  {
    assert ([e] + rest)[1..] == rest;
  }

  /** Nothing is known of the call, its thread or its turn. */
  ghost predicate Fresh(c: Client, r: RunId, thread: ThreadId, turn: TurnId) {
    && !c.failed && r !in c.runs && thread !in c.active && thread !in c.unconfirmed
    && turn !in c.retired && turn !in c.completed && turn !in c.usage && turn !in c.turnWaiters
      && turn !in c.stopWaiters
  }

  /** The client with this thread held and this call in it. */
  function With(c: Client, r: RunId, held: Option<TurnId>, run: Run): Client {
    c.(active := c.active[run.thread := held], runs := c.runs[r := run])
  }

  /** A call that has asked for its turn. */
  function Asked(thread: ThreadId, turn: Option<TurnId>, stage: Stage): Run {
    Run(thread, turn, None, true, false, stage)
  }

  function Heard(c: Client, thread: ThreadId, turn: TurnId): Client {
    c.(terminal := c.terminal + {(thread, turn)}, reports := c.reports + [Report(thread, Some(turn), true)])
  }

  /** The call waits for its turn. */
  function Waits(c: Client, r: RunId, thread: ThreadId, turn: TurnId, strict: bool): Client {
    With(c, r, Some(turn), Asked(thread, Some(turn), Waiting(strict, false)))
      .(turnWaiters := c.turnWaiters[turn := TurnWaiter(thread, r, strict)])
  }

  function Opening(r: RunId, thread: ThreadId, turn: TurnId, strict: bool): seq<Event> {
    [Call(r, thread), AnnounceDone(r), StartAnswered(r, turn), ContinueStart(r, strict, false)]
  }

  // ---------------------------------------------------------------- one event after the other

  lemma Calls(c: Client, r: RunId, thread: ThreadId, turn: TurnId)
    requires Fresh(c, r, thread, turn)
    ensures Enabled(c, Call(r, thread))
    ensures Handle(c, Call(r, thread)) == With(c, r, None, Run(thread, None, None, false, false, Announcing))
  {
  }

  lemma Announces(c: Client, r: RunId, thread: ThreadId)
    ensures var c1 := With(c, r, None, Run(thread, None, None, false, false, Announcing));
      Enabled(c1, AnnounceDone(r)) && Handle(c1, AnnounceDone(r)) == With(c, r, None, Asked(thread, None, Requesting))
  {
    var runs := c.runs[r := Run(thread, None, None, false, false, Announcing)];
    assert runs[r := Asked(thread, None, Requesting)] == c.runs[r := Asked(thread, None, Requesting)];
  }

  lemma IsAnswered(c: Client, r: RunId, thread: ThreadId, turn: TurnId)
    ensures var c1 := With(c, r, None, Asked(thread, None, Requesting));
      && Enabled(c1, StartAnswered(r, turn))
      && Handle(c1, StartAnswered(r, turn)) == With(c, r, None, Asked(thread, None, Responded(turn)))
  {
    var runs := c.runs[r := Asked(thread, None, Requesting)];
    assert runs[r := Asked(thread, None, Responded(turn))] == c.runs[r := Asked(thread, None, Responded(turn))];
  }

  lemma StartsToWait(c: Client, r: RunId, thread: ThreadId, turn: TurnId, strict: bool)
    requires Fresh(c, r, thread, turn)
    ensures var c1 := With(c, r, None, Asked(thread, None, Responded(turn)));
      && Enabled(c1, ContinueStart(r, strict, false))
      && Handle(c1, ContinueStart(r, strict, false)) == Waits(c, r, thread, turn, strict)
  {
    var run := Asked(thread, Some(turn), Waiting(strict, false));
    assert c.runs[r := Asked(thread, None, Responded(turn))][r := run] == c.runs[r := run];
    assert c.active[thread := None][thread := Some(turn)] == c.active[thread := Some(turn)];
  }

  /** A call gets to wait for its turn. */
  lemma Opens(c: Client, r: RunId, thread: ThreadId, turn: TurnId, strict: bool, rest: seq<Event>)
    requires Fresh(c, r, thread, turn)
    ensures Played(c, Opening(r, thread, turn, strict) + rest) == Played(Waits(c, r, thread, turn, strict), rest)
  {
    hide Handle, Enabled, Played, Waits;
    var e1, e2, e3, e4 := Call(r, thread), AnnounceDone(r), StartAnswered(r, turn), ContinueStart(r, strict, false);
    assert Opening(r, thread, turn, strict) + rest == [e1] + ([e2] + ([e3] + ([e4] + rest)));
    Calls(c, r, thread, turn);
    PlayOne(c, e1, [e2] + ([e3] + ([e4] + rest)));
    Announces(c, r, thread);
    PlayOne(Handle(c, e1), e2, [e3] + ([e4] + rest));
    IsAnswered(c, r, thread, turn);
    PlayOne(With(c, r, None, Asked(thread, None, Requesting)), e3, [e4] + rest);
    StartsToWait(c, r, thread, turn, strict);
    PlayOne(With(c, r, None, Asked(thread, None, Responded(turn))), e4, rest);
  }

  /** Usage arrives while the call waits. */
  lemma HearsUsage(c: Client, r: RunId, thread: ThreadId, turn: TurnId, strict: bool)
    requires Fresh(c, r, thread, turn)
    ensures var c1, e := Waits(c, r, thread, turn, strict), UsageUpdated(thread, turn);
      Enabled(c1, e) && Handle(c1, e) == c1.(usage := c.usage[turn := thread])
  {
  }

  lemma CompletesWithUsage(c: Client, r: RunId, thread: ThreadId, turn: TurnId, strict: bool)
    requires Fresh(c, r, thread, turn)
    ensures var c1 := Waits(c, r, thread, turn, strict).(usage := c.usage[turn := thread]);
      var e := TurnCompleted(thread, turn, COMPLETED, None);
      && Enabled(c1, e)
      && Handle(c1, e) == Heard(With(c, r, Some(turn), Asked(thread, Some(turn), Resolved(COMPLETED))), thread, turn)
  {
    hide OnCompleted, MaybeFinish, AnswerStop, Free;
    var c1 := Waits(c, r, thread, turn, strict).(usage := c.usage[turn := thread]);
    CompletedShape(c1, thread, turn, COMPLETED);
    var c2 := Noted(c1, thread, turn);
    Unanswered(c2, thread, turn);
    FinishesWithUsage(Recorded(c2, thread, turn, COMPLETED), r, thread, turn, strict);
    Forgets(c.turnWaiters, turn, TurnWaiter(thread, r, strict));
    Forgets(c.completed, turn, Completion(thread, COMPLETED));
    Forgets(c.usage, turn, thread);
    var run := Asked(thread, Some(turn), Resolved(COMPLETED));
    assert c1.runs[r := run] == c.runs[r := run];
  }

  lemma Forgets<T>(m: map<TurnId, T>, turn: TurnId, x: T)
    requires turn !in m
    ensures m[turn := x] - {turn} == m
  {
  }

  lemma FinishesWithUsage(c: Client, r: RunId, thread: ThreadId, turn: TurnId, strict: bool)
    requires r in c.runs && c.runs[r].stage.Waiting?
    requires turn in c.turnWaiters && c.turnWaiters[turn] == TurnWaiter(thread, r, strict)
    requires turn in c.completed && c.completed[turn] == Completion(thread, COMPLETED)
    requires turn in c.usage && c.usage[turn] == thread
    ensures MaybeFinish(c, turn) == c.(turnWaiters := c.turnWaiters - {turn}, completed := c.completed - {turn},
      usage := c.usage - {turn}, runs := c.runs[r := c.runs[r].(stage := Resolved(COMPLETED))])
  {
  }

  /** A turn that fails or is interrupted. */
  lemma FailsTurn(c: Client, r: RunId, thread: ThreadId, turn: TurnId, strict: bool, status: Status)
    requires Fresh(c, r, thread, turn) && status != COMPLETED
    ensures var c1, e := Waits(c, r, thread, turn, strict), TurnCompleted(thread, turn, status, None);
      && Enabled(c1, e)
      && Handle(c1, e) == Heard(With(c, r, Some(turn), Asked(thread, Some(turn), Rejected(true))), thread, turn)
  {
    hide OnCompleted, MaybeFinish, AnswerStop, Free;
    var c1 := Waits(c, r, thread, turn, strict);
    CompletedShape(c1, thread, turn, status);
    var c2 := Noted(c1, thread, turn);
    Unanswered(c2, thread, turn);
    FinishesBadly(Recorded(c2, thread, turn, status), r, thread, turn, strict, status);
    Forgets(c.turnWaiters, turn, TurnWaiter(thread, r, strict));
    Forgets(c.completed, turn, Completion(thread, status));
    assert c.usage - {turn} == c.usage;
    var run := Asked(thread, Some(turn), Rejected(true));
    assert c1.runs[r := run] == c.runs[r := run];
  }

  lemma FinishesBadly(c: Client, r: RunId, thread: ThreadId, turn: TurnId, strict: bool, status: Status)
    requires r in c.runs && c.runs[r].stage.Waiting? && status != COMPLETED
    requires turn in c.turnWaiters && c.turnWaiters[turn] == TurnWaiter(thread, r, strict)
    requires turn in c.completed && c.completed[turn] == Completion(thread, status)
    ensures MaybeFinish(c, turn) == c.(turnWaiters := c.turnWaiters - {turn}, completed := c.completed - {turn},
      usage := c.usage - {turn}, runs := c.runs[r := c.runs[r].(stage := Rejected(true))])
  {
  }

  /** The turn completes before its usage is known: a strict call waits on, another starts its timer. */
  lemma CompletesWithoutUsage(c: Client, r: RunId, thread: ThreadId, turn: TurnId, strict: bool)
    requires Fresh(c, r, thread, turn)
    ensures var c1, e := Waits(c, r, thread, turn, strict), TurnCompleted(thread, turn, COMPLETED, None);
      Enabled(c1, e) && Handle(c1, e) == Completed(c, r, thread, turn, strict)
  {
    hide OnCompleted, MaybeFinish, AnswerStop, Free;
    var c1 := Waits(c, r, thread, turn, strict);
    CompletedShape(c1, thread, turn, COMPLETED);
    var c2 := Noted(c1, thread, turn);
    Unanswered(c2, thread, turn);
    NotFinished(Recorded(c2, thread, turn, COMPLETED), r, thread, turn, strict);
    var run := Asked(thread, Some(turn), Waiting(strict, !strict));
    assert c1.runs[r := run] == c.runs[r := run];
  }

  lemma NotFinished(c: Client, r: RunId, thread: ThreadId, turn: TurnId, strict: bool)
    requires r in c.runs && c.runs[r] == Asked(thread, Some(turn), Waiting(strict, false)) && turn !in c.usage
    requires turn in c.turnWaiters && c.turnWaiters[turn] == TurnWaiter(thread, r, strict)
    requires turn in c.completed && c.completed[turn] == Completion(thread, COMPLETED)
    ensures MaybeFinish(c, turn) == c.(runs := c.runs[r := Asked(thread, Some(turn), Waiting(strict, !strict))])
  {
    assert strict ==> c.runs[r := Asked(thread, Some(turn), Waiting(strict, !strict))] == c.runs;
  }

  function Completed(c: Client, r: RunId, thread: ThreadId, turn: TurnId, strict: bool): Client {
    Heard(With(c, r, Some(turn), Asked(thread, Some(turn), Waiting(strict, !strict))), thread, turn)
      .(turnWaiters := c.turnWaiters[turn := TurnWaiter(thread, r, strict)],
        completed := c.completed[turn := Completion(thread, COMPLETED)])
  }

  /** Then the timer ends, or the call runs out of time: without the timer that counts as a stop, not as a result. */
  lemma WaitEnds(c: Client, r: RunId, thread: ThreadId, turn: TurnId, strict: bool, e: Event)
    requires Fresh(c, r, thread, turn) && (e == WaitTimedOut(r) || (e == GraceOver(r) && !strict))
    ensures var c1 := Completed(c, r, thread, turn, strict);
      && Enabled(c1, e)
      && Handle(c1, e) == Heard(With(c, r, Some(turn),
           Asked(thread, Some(turn), if strict then Rejected(true) else Resolved(COMPLETED))), thread, turn)
  {
    var c1 := Completed(c, r, thread, turn, strict);
    Forgets(c.turnWaiters, turn, TurnWaiter(thread, r, strict));
    Forgets(c.completed, turn, Completion(thread, COMPLETED));
    assert c.usage - {turn} == c.usage;
    var run := Asked(thread, Some(turn), if strict then Rejected(true) else Resolved(COMPLETED));
    assert c1.runs[r := run] == c.runs[r := run];
  }

  /** The caller aborts, or time runs out, before the turn has ended. */
  lemma Aborts(c: Client, r: RunId, thread: ThreadId, turn: TurnId, strict: bool, e: Event)
    requires Fresh(c, r, thread, turn) && (e == WaitAborted(r) || e == WaitTimedOut(r))
    ensures var c1 := Waits(c, r, thread, turn, strict);
      && Enabled(c1, e)
      && Handle(c1, e) == With(c, r, Some(turn), Asked(thread, Some(turn), Rejected(false)))
  {
    var c1 := Waits(c, r, thread, turn, strict);
    Forgets(c.turnWaiters, turn, TurnWaiter(thread, r, strict));
    assert c.usage - {turn} == c.usage && c.completed - {turn} == c.completed;
    var run := Asked(thread, Some(turn), Rejected(false));
    assert c1.runs[r := run] == c.runs[r := run];
  }

  function Interrupts(c: Client, r: RunId, thread: ThreadId, turn: TurnId): Client {
    With(c, r, Some(turn), Asked(thread, Some(turn), Interrupting))
      .(stopWaiters := c.stopWaiters[turn := StopWaiter(thread, ByRun(r))])
  }

  lemma AsksToStop(c: Client, r: RunId, thread: ThreadId, turn: TurnId)
    requires Fresh(c, r, thread, turn)
    ensures var c1 := With(c, r, Some(turn), Asked(thread, Some(turn), Rejected(false)));
      Enabled(c1, ContinueRejected(r)) && Handle(c1, ContinueRejected(r)) == Interrupts(c, r, thread, turn)
  {
    var c1 := With(c, r, Some(turn), Asked(thread, Some(turn), Rejected(false)));
    var run := Asked(thread, Some(turn), Interrupting);
    assert c1.runs[r := run] == c.runs[r := run];
  }

  lemma StopsAfterAll(c: Client, r: RunId, thread: ThreadId, turn: TurnId, status: Status)
    requires Fresh(c, r, thread, turn)
    ensures var c1, e := Interrupts(c, r, thread, turn), TurnCompleted(thread, turn, status, None);
      && Enabled(c1, e)
      && Handle(c1, e) == Heard(With(c, r, Some(turn), Asked(thread, Some(turn), Answered(true))), thread, turn)
           .(completed := c.completed[turn := Completion(thread, status)])
  {
    hide OnCompleted, MaybeFinish, AnswerStop, Free;
    var c1 := Interrupts(c, r, thread, turn);
    CompletedShape(c1, thread, turn, status);
    var c2 := Noted(c1, thread, turn);
    AnswersCall(c2, r, thread, turn);
    Forgets(c.stopWaiters, turn, StopWaiter(thread, ByRun(r)));
    var run := Asked(thread, Some(turn), Answered(true));
    assert c1.runs[r := run] == c.runs[r := run];
    NobodyWaits(Recorded(AnswerStop(c2, thread, turn), thread, turn, status), turn);
  }

  lemma AnswersCall(c: Client, r: RunId, thread: ThreadId, turn: TurnId)
    requires r in c.runs && c.runs[r].stage.Interrupting?
    requires turn in c.stopWaiters && c.stopWaiters[turn] == StopWaiter(thread, ByRun(r))
    ensures AnswerStop(c, thread, turn) ==
      c.(stopWaiters := c.stopWaiters - {turn}, runs := c.runs[r := c.runs[r].(stage := Answered(true))])
  {
  }

  lemma NobodyWaits(c: Client, turn: TurnId)
    requires turn !in c.turnWaiters
    ensures MaybeFinish(c, turn) == c
  {
  }

  lemma StopTimesOut(c: Client, r: RunId, thread: ThreadId, turn: TurnId)
    requires Fresh(c, r, thread, turn)
    ensures var c1 := Interrupts(c, r, thread, turn);
      && Enabled(c1, StopTimedOut(r))
      && Handle(c1, StopTimedOut(r)) == With(c, r, Some(turn), Asked(thread, Some(turn), Answered(false)))
  {
    var c1 := Interrupts(c, r, thread, turn);
    Forgets(c.stopWaiters, turn, StopWaiter(thread, ByRun(r)));
    var run := Asked(thread, Some(turn), Answered(false));
    assert c1.runs[r := run] == c.runs[r := run];
  }

  // ---------------------------------------------------------------- how a call ends

  /** What is left of a call whose turn has ended: it has returned, the turn is retired, and the thread is free. */
  function Ended(c: Client, r: RunId, thread: ThreadId, turn: TurnId, reports: nat): Client {
    c.(runs := c.runs[r := Run(thread, Some(turn), Some(turn), true, true, Returned)],
       retired := Retire(c, turn).retired, terminal := c.terminal + {(thread, turn)},
       reports := c.reports + seq(reports, _ => Report(thread, Some(turn), true)))
  }

  /** What is left of a call that gave up: its thread stays held, as unconfirmed, and nothing was reported. */
  function GivenUp(c: Client, r: RunId, thread: ThreadId, turn: Option<TurnId>): Client {
    With(c, r, turn, Asked(thread, turn, Returned)).(unconfirmed := c.unconfirmed + {thread})
  }

  /** The callback for "stopped" goes out. */
  lemma Declares(c: Client, r: RunId, e: Event)
    requires r in c.runs && c.runs[r].turn.Some?
    requires (e == ContinueRejected(r) && c.runs[r].stage == Rejected(true))
      || (e == ContinueStopped(r) && c.runs[r].stage == Answered(true))
    ensures Enabled(c, e)
    ensures var run := c.runs[r];
      Handle(c, e) == c.(runs := c.runs[r := run.(stopped := true, correlated := run.turn, stage := Reporting)],
        reports := c.reports + [Report(run.thread, run.turn, run.requested)])
  {
  }

  lemma FreesThread(c: Client, c1: Client, r: RunId, thread: ThreadId, turn: TurnId, stage: Stage)
    requires Fresh(c, r, thread, turn) && (stage == Reporting || stage == Resolved(COMPLETED))
    requires c1 == With(c, r, Some(turn), Run(thread, Some(turn), if stage == Reporting then Some(turn) else None,
      true, stage == Reporting, stage)).(terminal := c1.terminal, reports := c1.reports, completed := c1.completed)
    requires c1.completed - {turn} == c.completed
    ensures var e := if stage == Reporting then CallbackDone(r) else ContinueResolved(r, false);
      && Enabled(c1, e)
      && Handle(c1, e) == c.(runs := c.runs[r := Run(thread, Some(turn), Some(turn), true, true, Returned)],
           retired := Retire(c, turn).retired, terminal := c1.terminal, reports := c1.reports)
  {
    var run := Run(thread, Some(turn), Some(turn), true, true, Returned);
    assert c1.runs[r := run] == c.runs[r := run];
    assert c.active[thread := Some(turn)] - {thread} == c.active && c.unconfirmed - {thread} == c.unconfirmed;
    assert c.turnWaiters - {turn} == c.turnWaiters && c.usage - {turn} == c.usage;
    var e := if stage == Reporting then CallbackDone(r) else ContinueResolved(r, false);
    if stage != Reporting {
      assert c1.runs[r := run.(stage := Resolved(COMPLETED))][r := run] == c.runs[r := run];
    }
  }

  lemma GivesUp(c: Client, r: RunId, thread: ThreadId, turn: Option<TurnId>, e: Event)
    requires r !in c.runs && thread !in c.active
    requires (e == ContinueStopped(r)) || (e == ContinueRejected(r) && turn.None?)
    ensures var c1 := With(c, r, turn,
      Asked(thread, turn, if e.ContinueStopped? then Answered(false) else Rejected(false)));
      && Enabled(c1, e)
      && Enabled(Handle(c1, e), CallbackDone(r))
      && Handle(Handle(c1, e), CallbackDone(r)) == GivenUp(c, r, thread, turn)
  {
    var c1 := With(c, r, turn, Asked(thread, turn, if e.ContinueStopped? then Answered(false) else Rejected(false)));
    var run := Asked(thread, turn, Reporting);
    assert c1.runs[r := run] == c.runs[r := run];
    assert c.runs[r := run][r := run.(stage := Returned)] == c.runs[r := run.(stage := Returned)];
  }

  lemma PlayTwo(c: Client, e: Event, f: Event)
    requires Enabled(c, e) && Enabled(Handle(c, e), f)
    ensures Played(c, [e, f]) == Some(Handle(Handle(c, e), f))
  {
    assert [e, f] == [e] + [f] && [f] == [f] + [];
    PlayOne(c, e, [f]);
    PlayOne(Handle(c, e), f, []);
  }

  // ---------------------------------------------------------------- whole calls

  /** A call whose turn completes with its usage known returns, and frees its thread. */
  lemma SuccessfulCall(c: Client, r: RunId, thread: ThreadId, turn: TurnId, strict: bool)
    requires Fresh(c, r, thread, turn)
    ensures Played(c, Opening(r, thread, turn, strict) + ([UsageUpdated(thread, turn)]
      + [TurnCompleted(thread, turn, COMPLETED, None), ContinueResolved(r, false)])) ==
        Some(Ended(c, r, thread, turn, 1))
  {
    hide Handle, Enabled, Played, Waits, Retire;
    var e1, e2, e3 := UsageUpdated(thread, turn), TurnCompleted(thread, turn, COMPLETED, None),
      ContinueResolved(r, false);
    var c1 := Waits(c, r, thread, turn, strict);
    Opens(c, r, thread, turn, strict, [e1] + [e2, e3]);
    HearsUsage(c, r, thread, turn, strict);
    PlayOne(c1, e1, [e2, e3]);
    CompletesWithUsage(c, r, thread, turn, strict);
    var c2 := c1.(usage := c.usage[turn := thread]);
    FreesThread(c, Handle(c2, e2), r, thread, turn, Resolved(COMPLETED));
    PlayTwo(c2, e2, e3);
    assert seq(1, _ => Report(thread, Some(turn), true)) == [Report(thread, Some(turn), true)];
  }

  /** The callback for "stopped", and then the thread is free. */
  lemma DeclaresAndFrees(c: Client, c1: Client, r: RunId, thread: ThreadId, turn: TurnId, e: Event)
    requires Fresh(c, r, thread, turn)
    requires (e == ContinueRejected(r) && c1.runs == c.runs[r := Asked(thread, Some(turn), Rejected(true))])
      || (e == ContinueStopped(r) && c1.runs == c.runs[r := Asked(thread, Some(turn), Answered(true))])
    requires c1 == Heard(With(c, r, Some(turn), c1.runs[r]), thread, turn).(completed := c1.completed)
    requires c1.completed - {turn} == c.completed
    ensures Played(c1, [e, CallbackDone(r)]) == Some(Ended(c, r, thread, turn, 2))
  {
    hide Handle, Enabled, Played, Retire;
    Declares(c1, r, e);
    var c2 := Handle(c1, e);
    var run := Run(thread, Some(turn), Some(turn), true, true, Reporting);
    assert c1.runs[r := run] == c.runs[r := run];
    FreesThread(c, c2, r, thread, turn, Reporting);
    PlayTwo(c1, e, CallbackDone(r));
    var report := Report(thread, Some(turn), true);
    assert c.reports + [report] + [report] == c.reports + seq(2, _ => report);
  }

  /** A call whose turn fails, or was interrupted by others, reports the stop and frees its thread. */
  lemma FailedCall(c: Client, r: RunId, thread: ThreadId, turn: TurnId, strict: bool, status: Status)
    requires Fresh(c, r, thread, turn) && status != COMPLETED
    ensures Played(c, Opening(r, thread, turn, strict) + ([TurnCompleted(thread, turn, status, None)]
      + [ContinueRejected(r), CallbackDone(r)])) == Some(Ended(c, r, thread, turn, 2))
  {
    hide Handle, Enabled, Played, Waits, Retire;
    var e, rest := TurnCompleted(thread, turn, status, None), [ContinueRejected(r), CallbackDone(r)];
    var c1 := Waits(c, r, thread, turn, strict);
    Opens(c, r, thread, turn, strict, [e] + rest);
    FailsTurn(c, r, thread, turn, strict, status);
    PlayOne(c1, e, rest);
    assert c.completed - {turn} == c.completed;
    DeclaresAndFrees(c, Handle(c1, e), r, thread, turn, ContinueRejected(r));
  }

  /** Without usage a call that does not insist on it returns when its timer or its time ends. */
  lemma CallWithoutUsage(c: Client, r: RunId, thread: ThreadId, turn: TurnId, end: Event)
    requires Fresh(c, r, thread, turn) && (end == GraceOver(r) || end == WaitTimedOut(r))
    ensures Played(c, Opening(r, thread, turn, false) + ([TurnCompleted(thread, turn, COMPLETED, None)]
      + [end, ContinueResolved(r, false)])) == Some(Ended(c, r, thread, turn, 1))
  {
    hide Handle, Enabled, Played, Waits, Completed, Retire;
    var e, rest := TurnCompleted(thread, turn, COMPLETED, None), [end, ContinueResolved(r, false)];
    var c1, c2 := Waits(c, r, thread, turn, false), Completed(c, r, thread, turn, false);
    Opens(c, r, thread, turn, false, [e] + rest);
    CompletesWithoutUsage(c, r, thread, turn, false);
    PlayOne(c1, e, rest);
    WaitEnds(c, r, thread, turn, false, end);
    assert c.completed - {turn} == c.completed;
    FreesThread(c, Handle(c2, end), r, thread, turn, Resolved(COMPLETED));
    PlayTwo(c2, end, ContinueResolved(r, false));
    assert seq(1, _ => Report(thread, Some(turn), true)) == [Report(thread, Some(turn), true)];
  }

  /** One that insists on it has no result without it: it fails when its time ends, but the stop is known. */
  lemma StrictCallWithoutUsage(c: Client, r: RunId, thread: ThreadId, turn: TurnId)
    requires Fresh(c, r, thread, turn)
    ensures Played(c, Opening(r, thread, turn, true) + ([TurnCompleted(thread, turn, COMPLETED, None)]
      + ([WaitTimedOut(r)] + [ContinueRejected(r), CallbackDone(r)]))) == Some(Ended(c, r, thread, turn, 2))
  {
    hide Handle, Enabled, Played, Waits, Completed, Retire;
    var e, end, rest := TurnCompleted(thread, turn, COMPLETED, None), WaitTimedOut(r),
      [ContinueRejected(r), CallbackDone(r)];
    var c1, c2 := Waits(c, r, thread, turn, true), Completed(c, r, thread, turn, true);
    Opens(c, r, thread, turn, true, [e] + ([end] + rest));
    CompletesWithoutUsage(c, r, thread, turn, true);
    PlayOne(c1, e, [end] + rest);
    WaitEnds(c, r, thread, turn, true, end);
    PlayOne(c2, end, rest);
    assert c.completed - {turn} == c.completed;
    DeclaresAndFrees(c, Handle(c2, end), r, thread, turn, ContinueRejected(r));
  }

  /**
   * A call that is aborted, or out of time, interrupts its turn; when that ends the stop is reported and the thread
   * free.
   */
  lemma InterruptedCall(c: Client, r: RunId, thread: ThreadId, turn: TurnId, strict: bool, abort: Event, status: Status)
    requires Fresh(c, r, thread, turn) && (abort == WaitAborted(r) || abort == WaitTimedOut(r))
    ensures Played(c, Opening(r, thread, turn, strict) + ([abort] + ([ContinueRejected(r)]
      + ([TurnCompleted(thread, turn, status, None)] + [ContinueStopped(r), CallbackDone(r)]))))
      == Some(Ended(c, r, thread, turn, 2))
  {
    hide Handle, Enabled, Played, Waits, Interrupts, Retire;
    var e, rest := TurnCompleted(thread, turn, status, None), [ContinueStopped(r), CallbackDone(r)];
    var c1 := Waits(c, r, thread, turn, strict);
    Opens(c, r, thread, turn, strict, [abort] + ([ContinueRejected(r)] + ([e] + rest)));
    Aborts(c, r, thread, turn, strict, abort);
    PlayOne(c1, abort, [ContinueRejected(r)] + ([e] + rest));
    AsksToStop(c, r, thread, turn);
    PlayOne(Handle(c1, abort), ContinueRejected(r), [e] + rest);
    StopsAfterAll(c, r, thread, turn, status);
    PlayOne(Interrupts(c, r, thread, turn), e, rest);
    Forgets(c.completed, turn, Completion(thread, status));
    DeclaresAndFrees(c, Handle(Interrupts(c, r, thread, turn), e), r, thread, turn, ContinueStopped(r));
  }

  /** If the interrupt times out as well, the call gives up, and its thread stays held as unconfirmed. */
  lemma AbandonedCall(c: Client, r: RunId, thread: ThreadId, turn: TurnId, strict: bool, abort: Event)
    requires Fresh(c, r, thread, turn) && (abort == WaitAborted(r) || abort == WaitTimedOut(r))
    ensures Played(c, Opening(r, thread, turn, strict) + ([abort] + ([ContinueRejected(r)]
      + ([StopTimedOut(r)] + [ContinueStopped(r), CallbackDone(r)])))) == Some(GivenUp(c, r, thread, Some(turn)))
  {
    hide Handle, Enabled, Played, Waits, Interrupts;
    var e, rest := StopTimedOut(r), [ContinueStopped(r), CallbackDone(r)];
    var c1 := Waits(c, r, thread, turn, strict);
    Opens(c, r, thread, turn, strict, [abort] + ([ContinueRejected(r)] + ([e] + rest)));
    Aborts(c, r, thread, turn, strict, abort);
    PlayOne(c1, abort, [ContinueRejected(r)] + ([e] + rest));
    AsksToStop(c, r, thread, turn);
    PlayOne(Handle(c1, abort), ContinueRejected(r), [e] + rest);
    StopTimesOut(c, r, thread, turn);
    PlayOne(Interrupts(c, r, thread, turn), e, rest);
    GivesUp(c, r, thread, Some(turn), ContinueStopped(r));
    PlayTwo(Handle(Interrupts(c, r, thread, turn), e), ContinueStopped(r), CallbackDone(r));
  }

  /** A call whose turn could not be started gives up at once: a turn may have started all the same. */
  lemma UnstartedCall(c: Client, r: RunId, thread: ThreadId, turn: TurnId)
    requires Fresh(c, r, thread, turn)
    ensures Played(c, [Call(r,
      thread)] + ([AnnounceDone(r)] + ([StartFailed(r)] + [ContinueRejected(r), CallbackDone(r)])))
      == Some(GivenUp(c, r, thread, None))
  {
    hide Handle, Enabled, Played;
    var rest := [ContinueRejected(r), CallbackDone(r)];
    Calls(c, r, thread, turn);
    PlayOne(c, Call(r, thread), [AnnounceDone(r)] + ([StartFailed(r)] + rest));
    Announces(c, r, thread);
    PlayOne(Handle(c, Call(r, thread)), AnnounceDone(r), [StartFailed(r)] + rest);
    StartFails(c, r, thread);
    PlayOne(With(c, r, None, Asked(thread, None, Requesting)), StartFailed(r), rest);
    GivesUp(c, r, thread, None, ContinueRejected(r));
    PlayTwo(With(c, r, None, Asked(thread, None, Rejected(false))), ContinueRejected(r), CallbackDone(r));
  }

  lemma StartFails(c: Client, r: RunId, thread: ThreadId)
    ensures var c1 := With(c, r, None, Asked(thread, None, Requesting));
      && Enabled(c1, StartFailed(r))
      && Handle(c1, StartFailed(r)) == With(c, r, None, Asked(thread, None, Rejected(false)))
  {
    var runs := c.runs[r := Asked(thread, None, Requesting)];
    assert runs[r := Asked(thread, None, Rejected(false))] == c.runs[r := Asked(thread, None, Rejected(false))];
  }

  /** The client with this thread seen to run this turn before the call has an answer. */
  function Seen(c: Client, r: RunId, thread: ThreadId, turn: TurnId, stage: Stage): Client {
    With(c, r, Some(turn), Asked(thread, None, stage))
  }

  lemma SeesStart(c: Client, r: RunId, thread: ThreadId, turn: TurnId)
    requires Fresh(c, r, thread, turn)
    ensures var c1, e := With(c, r, None, Asked(thread, None, Requesting)), TurnStarted(thread, turn, None);
      Enabled(c1, e) && Handle(c1, e) == Seen(c, r, thread, turn, Requesting)
  {
    assert c.active[thread := None][thread := Some(turn)] == c.active[thread := Some(turn)];
  }

  lemma StartLost(c: Client, r: RunId, thread: ThreadId, turn: TurnId)
    requires Fresh(c, r, thread, turn)
    ensures var c1, c2 := Seen(c, r, thread, turn, Requesting), Seen(c, r, thread, turn, Rejected(false));
      && Enabled(c1, StartFailed(r)) && Handle(c1, StartFailed(r)) == c2
      && Enabled(c2, ContinueRejected(r))
      && Handle(c2, ContinueRejected(r)) == Seen(c, r, thread, turn, Interrupting)
           .(stopWaiters := c.stopWaiters[turn := StopWaiter(thread, ByRun(r))])
  {
    var runs := c.runs[r := Asked(thread, None, Requesting)];
    assert runs[r := Asked(thread, None, Rejected(false))] == c.runs[r := Asked(thread, None, Rejected(false))];
    var runs' := c.runs[r := Asked(thread, None, Rejected(false))];
    assert runs'[r := Asked(thread, None, Interrupting)] == c.runs[r := Asked(thread, None, Interrupting)];
  }

  /** If the start of a turn was seen although the request for it failed, that turn is interrupted. */
  lemma SeenTurnIsInterrupted(c: Client, r: RunId, thread: ThreadId, turn: TurnId)
    requires Fresh(c, r, thread, turn)
    ensures Played(c, [Call(r, thread)] + ([AnnounceDone(r)] + ([TurnStarted(thread, turn, None)]
      + [StartFailed(r), ContinueRejected(r)])))
      == Some(Seen(c, r, thread, turn,
        Interrupting).(stopWaiters := c.stopWaiters[turn := StopWaiter(thread, ByRun(r))]))
  {
    hide Handle, Enabled, Played, Seen;
    var e, rest := TurnStarted(thread, turn, None), [StartFailed(r), ContinueRejected(r)];
    Calls(c, r, thread, turn);
    PlayOne(c, Call(r, thread), [AnnounceDone(r)] + ([e] + rest));
    Announces(c, r, thread);
    PlayOne(Handle(c, Call(r, thread)), AnnounceDone(r), [e] + rest);
    SeesStart(c, r, thread, turn);
    PlayOne(With(c, r, None, Asked(thread, None, Requesting)), e, rest);
    StartLost(c, r, thread, turn);
    PlayTwo(Seen(c, r, thread, turn, Requesting), StartFailed(r), ContinueRejected(r));
  }

  /**
   * A call that could not be announced never asks for a turn; it reports the stop it knows of, and frees its thread.
   */
  lemma UnannouncedCall(c: Client, r: RunId, thread: ThreadId, turn: TurnId)
    requires Fresh(c, r, thread, turn)
    ensures Played(c, [Call(r, thread)] + ([AnnounceFailed(r, true)] + [ContinueRejected(r), CallbackDone(r)])) ==
      Some(c.(runs := c.runs[r := Run(thread, None, None, false, true, Returned)],
        reports := c.reports + [Report(thread, None, false)]))
  {
    hide Handle, Enabled, Played;
    var rest := [ContinueRejected(r), CallbackDone(r)];
    Calls(c, r, thread, turn);
    PlayOne(c, Call(r, thread), [AnnounceFailed(r, true)] + rest);
    var c1 := With(c, r, None, Run(thread, None, None, false, false, Announcing));
    NotAnnounced(c, r, thread);
    PlayOne(c1, AnnounceFailed(r, true), rest);
    var c2 := Handle(c1, AnnounceFailed(r, true));
    EndsUnasked(c, r, thread);
    PlayTwo(c2, ContinueRejected(r), CallbackDone(r));
  }

  lemma NotAnnounced(c: Client, r: RunId, thread: ThreadId)
    ensures var c1 := With(c, r, None, Run(thread, None, None, false, false, Announcing));
      && Enabled(c1, AnnounceFailed(r, true))
      && Handle(c1, AnnounceFailed(r, true)) == With(c, r, None, Run(thread, None, None, false, false, Rejected(true)))
  {
    var run := Run(thread, None, None, false, false, Rejected(true));
    assert c.runs[r := run.(stage := Announcing)][r := run] == c.runs[r := run];
  }

  lemma EndsUnasked(c: Client, r: RunId, thread: ThreadId)
    requires r !in c.runs && thread !in c.active && thread !in c.unconfirmed
    ensures var c1 := With(c, r, None, Run(thread, None, None, false, false, Rejected(true)));
      && Enabled(c1, ContinueRejected(r)) && Enabled(Handle(c1, ContinueRejected(r)), CallbackDone(r))
      && Handle(Handle(c1, ContinueRejected(r)), CallbackDone(r)) ==
        c.(runs := c.runs[r := Run(thread, None, None, false, true, Returned)],
          reports := c.reports + [Report(thread, None, false)])
  {
    var run := Run(thread, None, None, false, true, Reporting);
    assert c.runs[r := run.(stopped := false, stage := Rejected(true))][r := run] == c.runs[r := run];
    assert c.runs[r := run][r := run.(stage := Returned)] == c.runs[r := run.(stage := Returned)];
    assert c.active[thread := None] - {thread} == c.active && c.unconfirmed - {thread} == c.unconfirmed;
  }

  /**
   * A call whose answer cannot be read fails after its turn has ended: the stop is reported, and the thread is free.
   */
  lemma ThrowingCall(c: Client, r: RunId, thread: ThreadId, turn: TurnId, strict: bool)
    requires Fresh(c, r, thread, turn)
    ensures Played(c, Opening(r, thread, turn, strict) + ([UsageUpdated(thread, turn)]
      + ([TurnCompleted(thread, turn, COMPLETED, None)] + [ContinueResolved(r, true), CallbackDone(r)])))
      == Some(Ended(c, r, thread, turn, 2))
  {
    hide Handle, Enabled, Played, Waits, Retire;
    var e1, e2 := UsageUpdated(thread, turn), TurnCompleted(thread, turn, COMPLETED, None);
    var rest := [ContinueResolved(r, true), CallbackDone(r)];
    var c1 := Waits(c, r, thread, turn, strict);
    Opens(c, r, thread, turn, strict, [e1] + ([e2] + rest));
    HearsUsage(c, r, thread, turn, strict);
    PlayOne(c1, e1, [e2] + rest);
    CompletesWithUsage(c, r, thread, turn, strict);
    var c2 := c1.(usage := c.usage[turn := thread]);
    PlayOne(c2, e2, rest);
    var c3 := Handle(c2, e2);
    Throws(c3, r);
    var run := Run(thread, Some(turn), Some(turn), true, true, Reporting);
    assert c3.runs[r := run] == c.runs[r := run];
    assert c.completed - {turn} == c.completed;
    FreesThread(c, Handle(c3, ContinueResolved(r, true)), r, thread, turn, Reporting);
    PlayTwo(c3, ContinueResolved(r, true), CallbackDone(r));
    var report := Report(thread, Some(turn), true);
    assert c.reports + [report] + [report] == c.reports + seq(2, _ => report);
  }

  lemma Throws(c: Client, r: RunId)
    requires r in c.runs && c.runs[r].turn.Some? && c.runs[r].stage.Resolved?
    ensures Enabled(c, ContinueResolved(r, true))
    ensures var run := c.runs[r];
      Handle(c, ContinueResolved(r, true)) ==
        c.(runs := c.runs[r := run.(stopped := true, correlated := run.turn, stage := Reporting)],
          reports := c.reports + [Report(run.thread, run.turn, run.requested)])
  {
  }

  /** An abort, or a failed connection, found when the turn is known keeps the call from waiting for it. */
  lemma NeverWaits(c: Client, r: RunId, thread: ThreadId, turn: TurnId, strict: bool, aborted: bool)
    requires aborted || c.failed
    ensures var c1 := With(c, r, None, Asked(thread, None, Responded(turn)));
      && Enabled(c1, ContinueStart(r, strict, aborted))
      && Handle(c1, ContinueStart(r, strict, aborted)) ==
        With(c, r, Some(turn), Asked(thread, Some(turn), Rejected(false)))
  {
    var run := Asked(thread, Some(turn), Rejected(false));
    assert c.runs[r := Asked(thread, None, Responded(turn))][r := run] == c.runs[r := run];
    assert c.active[thread := None][thread := Some(turn)] == c.active[thread := Some(turn)];
  }

  // ---------------------------------------------------------------- a lost connection

  /**
   * When the connection is lost, exactly the calls that await an answer get one, without evidence, and no waiter is
   * left.
   */
  lemma LossSettlesExactly(c: Client, r: RunId)
    requires r in c.runs
    ensures var c' := RejectAll(c);
      && c' == c.(turnWaiters := map[], stopWaiters := map[], completed := c'.completed, usage := c'.usage,
        runs := c'.runs)
      && r in c'.runs && c'.runs[r] == c.runs[r].(stage :=
           if c.runs[r].stage.Requesting? then Rejected(false)
           else if c.runs[r].stage.Waiting?
             && (exists t :: t in c.turnWaiters && c.turnWaiters[t].run == r) then Rejected(false)
           else if c.runs[r].stage.Interrupting?
             && (exists t :: t in c.stopWaiters && c.stopWaiters[t].owner == ByRun(r))
           then Answered(false)
           else c.runs[r].stage)
  {
    assert r in WaitedRuns(c.turnWaiters) <==> exists t :: t in c.turnWaiters && c.turnWaiters[t].run == r;
    assert r in StoppingRuns(c.stopWaiters) <==> exists t :: t in c.stopWaiters && c.stopWaiters[t].owner == ByRun(r);
  }

  /** A late interrupt that runs out of time is forgotten, and the completion of its turn then answers nobody. */
  lemma LateInterruptForgotten(c: Client, turn: TurnId, thread: ThreadId)
    ensures var c' := Handle(c, LateTimedOut(turn));
      && c'.stopWaiters.Keys == c.stopWaiters.Keys - {turn} && (forall t :: t in c'.stopWaiters ==>
           c'.stopWaiters[t] == c.stopWaiters[t])
      && c' == c.(stopWaiters := c'.stopWaiters) && AnswerStop(c', thread, turn) == c'
  {
  }

  /** A notification whose envelope names a retired turn changes nothing, but for the record of completions. */
  lemma RetiredEnvelope(c: Client, thread: ThreadId, turn: TurnId, status: Status, named: TurnId)
    requires named in c.retired
    ensures Handle(c, TurnStarted(thread, turn, Some(named))) == c
    ensures Handle(c, TurnCompleted(thread, turn, status, Some(named))) == c.(terminal := c.terminal + {(thread, turn)})
  {
    hide OnStarted, OnCompleted;
  }
}
