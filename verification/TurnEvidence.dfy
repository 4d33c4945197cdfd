/**
 * Stop evidence is sound: under every interleaving of events, a thread becomes free, and a started turn is
 * reported stopped, only after a terminal completion of that turn on that thread
 * (codex/codex-side/src/codex-app-server-client.ts:451-679 and 906-1013).
 */
module TurnEvidence {
  import opened Bridge
  import opened TurnClient

  /** The call still occupies its thread: it has not ended, nor given the thread up as unconfirmed. */
  ghost predicate Holding(run: Run) {
    !run.stage.Returned? && !(run.stage.Reporting? && !run.stopped)
  }

  /** A terminal completion of this turn on this thread has arrived. */
  ghost predicate Evidence(c: Client, thread: ThreadId, turn: Option<TurnId>) {
    turn.Some? && (thread, turn.value) in c.terminal
  }

  ghost predicate RunOk(c: Client, r: RunId)
    requires r in c.runs
  {
    var run := c.runs[r];
    && (Holding(run) ==> run.thread in c.active && run.thread !in c.unconfirmed)
    && (Holding(run) && run.turn.Some? ==> c.active[run.thread] == run.turn)
    && (run.stage.Waiting? || run.stage.Resolved? ==> run.turn.Some?)
    && (run.stage.Waiting? && run.stage.graceTimer ==> Evidence(c, run.thread, run.turn))
    && (run.stage.Resolved? ==> Evidence(c, run.thread, run.turn))
    && (run.stage.Rejected? && run.stage.confirmed && run.requested ==> Evidence(c, run.thread, run.turn))
    && (run.stage.Interrupting? ==> Correlated(c, run).Some?)
    && (run.stage.Answered? && run.stage.confirmed ==> Evidence(c, run.thread, Correlated(c, run)))
    && (run.stopped && run.requested ==> Evidence(c, run.thread, run.correlated))
    && (run.stopped && run.turn.Some? ==> run.correlated == run.turn)
    && (run.stopped && run.requested && run.stage.Reporting? ==> Correlated(c, run) == run.correlated)
    && (run.stage.Announcing? ==> !run.requested)
    && (!run.stage.Reporting? && !run.stage.Returned? && !run.stage.Resolved? ==> !run.stopped)
    && (run.stage.Announcing? || run.stage.Requesting? || run.stage.Responded? ==> run.turn.None?)
  }

  /** Where a call is once it has registered a stop waiter. */
  predicate PastWait(stage: Stage) {
    stage.Interrupting? || stage.Answered? || stage.Reporting? || stage.Returned?
  }

  /** A waiter registered by a call that still waits speaks about that call's turn. */
  ghost predicate StopOk(c: Client, t: TurnId)
    requires t in c.stopWaiters
  {
    var w := c.stopWaiters[t];
    match w.owner
    case ByRun(r) =>
      && r in c.runs && PastWait(c.runs[r].stage)
      && (c.runs[r].stage.Interrupting? ==> c.runs[r].thread == w.thread && Correlated(c, c.runs[r]) == Some(t))
    case Late =>
      || (w.thread in c.unconfirmed && w.thread in c.active && c.active[w.thread] == Some(t))
      || (w.thread, t) in c.terminal
  }

  ghost predicate TurnOk(c: Client, t: TurnId)
    requires t in c.turnWaiters
  {
    var w := c.turnWaiters[t];
    && w.run in c.runs && c.runs[w.run].turn.Some?
    && (c.runs[w.run].stage.Waiting? ==> c.runs[w.run].thread == w.thread && c.runs[w.run].turn == Some(t))
  }

  ghost predicate Inv(c: Client) {
    && (forall t :: t in c.completed ==> (c.completed[t].thread, t) in c.terminal)
    && (forall thread :: thread in c.unconfirmed ==> thread in c.active)
    && (forall r :: r in c.runs ==> RunOk(c, r))
    && (forall r, q | r in c.runs && q in c.runs && Holding(c.runs[r]) && Holding(c.runs[q])
      && c.runs[r].thread == c.runs[q].thread :: r == q)
    && (forall t :: t in c.stopWaiters ==> StopOk(c, t))
    && (forall t :: t in c.turnWaiters ==> TurnOk(c, t))
  }

  // ---------------------------------------------------------------- pieces of a step

  lemma RemoveTurnWaiterKeeps(c: Client, turn: TurnId)
    requires Inv(c)
    ensures Inv(RemoveTurnWaiter(c, turn))
  {
    var c' := RemoveTurnWaiter(c, turn);
    forall r | r in c'.runs ensures RunOk(c', r) {
      assert RunOk(c, r);
    }
    forall t | t in c'.stopWaiters ensures StopOk(c', t) {
      assert StopOk(c, t);
    }
    forall t | t in c'.turnWaiters ensures TurnOk(c', t) {
      assert TurnOk(c, t);
    }
  }

  /** One call changes, keeping its thread and its hold on it. */
  lemma RunChangeKeeps(c: Client, r: RunId, run: Run)
    requires Inv(c) && r in c.runs && run.thread == c.runs[r].thread && run.turn == c.runs[r].turn && Holding(c.runs[r])
    requires !run.stage.Waiting? && !run.stage.Interrupting? && (PastWait(c.runs[r].stage) ==> PastWait(run.stage))
    requires RunOk(c.(runs := c.runs[r := run]), r)
    ensures Inv(c.(runs := c.runs[r := run]))
  {
    var c' := c.(runs := c.runs[r := run]);
    forall q | q in c'.runs ensures RunOk(c', q) {
      assert RunOk(c, q);
    }
    forall t | t in c'.stopWaiters ensures StopOk(c', t) {
      assert StopOk(c, t);
    }
    forall t | t in c'.turnWaiters ensures TurnOk(c', t) {
      assert TurnOk(c, t);
    }
  }

  lemma SettleWaitKeeps(c: Client, r: RunId, stage: Stage)
    requires Inv(c)
    requires stage.Rejected? || stage.Resolved?
    requires r in c.runs && c.runs[r].stage.Waiting? && stage != Rejected(false) ==>
      Evidence(c, c.runs[r].thread, c.runs[r].turn)
    ensures Inv(SettleWait(c, r, stage))
  {
    if r in c.runs && c.runs[r].stage.Waiting? {
      assert RunOk(c, r);
      RunChangeKeeps(c, r, c.runs[r].(stage := stage));
    }
  }

  lemma ArmGraceKeeps(c: Client, r: RunId, strict: bool)
    requires Inv(c) && r in c.runs && c.runs[r].stage.Waiting? && Evidence(c, c.runs[r].thread, c.runs[r].turn)
    ensures Inv(SettleWait(c, r, Waiting(strict, true)))
  {
    var c' := SettleWait(c, r, Waiting(strict, true));
    forall q | q in c'.runs ensures RunOk(c', q) {
      assert RunOk(c, q);
    }
    forall t | t in c'.stopWaiters ensures StopOk(c', t) {
      assert StopOk(c, t);
    }
    forall t | t in c'.turnWaiters ensures TurnOk(c', t) {
      assert TurnOk(c, t);
    }
  }

  lemma MaybeFinishKeeps(c: Client, turn: TurnId)
    requires Inv(c)
    ensures Inv(MaybeFinish(c, turn))
  {
    if turn in c.turnWaiters && turn in c.completed && c.completed[turn].thread == c.turnWaiters[turn].thread {
      var w := c.turnWaiters[turn];
      assert TurnOk(c, turn);
      RemoveTurnWaiterKeeps(c, turn);
      hide Inv, RunOk;
      var c1 := RemoveTurnWaiter(c, turn);
      SettleWaitKeeps(c1, w.run, Rejected(true));
      SettleWaitKeeps(c1, w.run, Resolved(COMPLETED));
      if c.runs[w.run].stage.Waiting? { ArmGraceKeeps(c, w.run, w.strict); }
    }
  }

  /** A thread is dropped: no call holds it any more, and its late waiters have their evidence. */
  lemma FreeKeeps(c: Client, thread: ThreadId, turn: Option<TurnId>)
    requires Inv(c) && forall r :: r in c.runs && Holding(c.runs[r]) ==> c.runs[r].thread != thread
    requires thread in c.unconfirmed ==> Evidence(c, thread, ActiveTurn(c, thread))
    ensures Inv(Free(c, thread, turn))
  {
    var c' := c.(active := c.active - {thread}, unconfirmed := c.unconfirmed - {thread});
    forall r | r in c'.runs ensures RunOk(c', r) {
      assert RunOk(c, r);
    }
    forall t | t in c'.stopWaiters ensures StopOk(c', t) {
      assert StopOk(c, t);
    }
    forall t | t in c'.turnWaiters ensures TurnOk(c', t) {
      assert TurnOk(c, t);
    }
    hide RunOk, StopOk, TurnOk;
    assert Inv(c');
    if turn.Some? {
      hide Inv;
      RemoveTurnWaiterKeeps(c', turn.value);
      SameButRetired(RemoveTurnWaiter(c', turn.value), Free(c, thread, turn));
    }
  }

  lemma SameButRetired(c: Client, c': Client)
    requires Inv(c) && c' == c.(retired := c'.retired, reports := c'.reports, failed := c'.failed)
    ensures Inv(c')
  {
    forall r | r in c'.runs ensures RunOk(c', r) {
      assert RunOk(c, r);
    }
    forall t | t in c'.stopWaiters ensures StopOk(c', t) {
      assert StopOk(c, t);
    }
    forall t | t in c'.turnWaiters ensures TurnOk(c', t) {
      assert TurnOk(c, t);
    }
  }

  // ---------------------------------------------------------------- the calls

  lemma CallKeeps(c: Client, r: RunId, thread: ThreadId)
    requires Inv(c) && r !in c.runs && thread !in c.active
    ensures Inv(Enter(c, r, thread))
  {
    var c' := Enter(c, r, thread);
    forall q | q in c'.runs ensures RunOk(c', q) {
      if q != r { assert RunOk(c, q); }
    }
    forall t | t in c'.stopWaiters ensures StopOk(c', t) {
      assert StopOk(c, t);
      assert c.stopWaiters[t].owner.ByRun? ==> RunOk(c, c.stopWaiters[t].owner.run);
    }
    forall t | t in c'.turnWaiters ensures TurnOk(c', t) {
      assert TurnOk(c, t);
    }
    forall q | q in c.runs && Holding(c.runs[q]) ensures c.runs[q].thread != thread {
      assert RunOk(c, q);
    }
  }

  /** The response names the turn; the call goes on to wait for it, or fails. */
  lemma TurnKnownKeeps(c: Client, r: RunId, turn: TurnId, stage: Stage)
    requires Inv(c) && r in c.runs && c.runs[r].stage.Responded?
    requires stage == Rejected(false) || (stage.Waiting? && !stage.graceTimer)
    ensures Inv(c.(active := c.active[c.runs[r].thread := Some(turn)],
      runs := c.runs[r := c.runs[r].(turn := Some(turn), stage := stage)]))
  {
    var run := c.runs[r];
    assert RunOk(c, r);
    var c' := c.(active := c.active[run.thread := Some(turn)],
      runs := c.runs[r := run.(turn := Some(turn), stage := stage)]);
    forall q | q in c'.runs ensures RunOk(c', q) {
      assert RunOk(c, q);
      assert q != r && Holding(c.runs[q]) ==> c.runs[q].thread != run.thread;
    }
    forall t | t in c'.stopWaiters ensures StopOk(c', t) {
      assert StopOk(c, t);
      var w := c.stopWaiters[t];
      assert w.owner.ByRun? && c.runs[w.owner.run].stage.Interrupting? ==>
        Holding(c.runs[w.owner.run]) && w.owner.run != r;
    }
    forall t | t in c'.turnWaiters ensures TurnOk(c', t) {
      assert TurnOk(c, t);
    }
  }

  lemma NewTurnWaiterKeeps(c: Client, turn: TurnId, w: TurnWaiter)
    requires Inv(c) && w.run in c.runs && c.runs[w.run].thread == w.thread && c.runs[w.run].turn == Some(turn)
    ensures Inv(c.(turnWaiters := c.turnWaiters[turn := w]))
  {
    var c' := c.(turnWaiters := c.turnWaiters[turn := w]);
    forall q | q in c'.runs ensures RunOk(c', q) {
      assert RunOk(c, q);
    }
    forall t | t in c'.stopWaiters ensures StopOk(c', t) {
      assert StopOk(c, t);
    }
    forall t | t in c'.turnWaiters ensures TurnOk(c', t) {
      assert t != turn ==> TurnOk(c, t);
    }
  }

  lemma BeginWaitKeeps(c: Client, r: RunId, turn: TurnId, strict: bool, aborted: bool)
    requires Inv(c) && r in c.runs && c.runs[r].stage.Responded?
    ensures Inv(BeginWait(c, r, turn, strict, aborted))
  {
    hide Inv, RunOk, MaybeFinish;
    var run := c.runs[r];
    TurnKnownKeeps(c, r, turn, Rejected(false));
    TurnKnownKeeps(c, r, turn, Waiting(strict, false));
    var c1 := c.(active := c.active[run.thread := Some(turn)],
      runs := c.runs[r := run.(turn := Some(turn), stage := Waiting(strict, false))]);
    NewTurnWaiterKeeps(c1, turn, TurnWaiter(run.thread, r, strict));
    MaybeFinishKeeps(c1.(turnWaiters := c.turnWaiters[turn := TurnWaiter(run.thread, r, strict)]), turn);
  }

  lemma DeclareStoppedKeeps(c: Client, r: RunId)
    requires Inv(c) && r in c.runs && Holding(c.runs[r]) && !c.runs[r].stage.Waiting?
    requires c.runs[r].requested ==> Evidence(c, c.runs[r].thread, Correlated(c, c.runs[r]))
    ensures Inv(DeclareStopped(c, r))
  {
    var run := c.runs[r];
    assert RunOk(c, r);
    var run' := run.(stopped := true, correlated := Correlated(c, run), stage := Reporting);
    var c' := c.(runs := c.runs[r := run']);
    RunChangeKeeps(c, r, run');
    SameButRetired(c', DeclareStopped(c, r));
  }

  lemma DeclareUnconfirmedKeeps(c: Client, r: RunId)
    requires Inv(c) && r in c.runs && Holding(c.runs[r])
    ensures Inv(DeclareUnconfirmed(c, r))
  {
    var c' := DeclareUnconfirmed(c, r);
    assert RunOk(c, r);
    forall q | q in c'.runs ensures RunOk(c', q) {
      assert RunOk(c, q);
    }
    forall t | t in c'.stopWaiters ensures StopOk(c', t) {
      assert StopOk(c, t);
    }
    forall t | t in c'.turnWaiters ensures TurnOk(c', t) {
      assert TurnOk(c, t);
    }
  }

  lemma InterruptingKeeps(c: Client, r: RunId)
    requires Inv(c) && r in c.runs && c.runs[r].stage.Rejected? && Correlated(c, c.runs[r]).Some?
    ensures Inv(SetStage(c, r, Interrupting))
  {
    var c' := SetStage(c, r, Interrupting);
    forall q | q in c'.runs ensures RunOk(c', q) {
      assert RunOk(c, q);
    }
    forall t | t in c'.stopWaiters ensures StopOk(c', t) {
      assert StopOk(c, t);
    }
    forall t | t in c'.turnWaiters ensures TurnOk(c', t) {
      assert TurnOk(c, t);
    }
  }

  lemma NewStopWaiterKeeps(c: Client, r: RunId, turn: TurnId)
    requires Inv(c) && r in c.runs && c.runs[r].stage.Interrupting? && Correlated(c, c.runs[r]) == Some(turn)
    ensures Inv(c.(stopWaiters := c.stopWaiters[turn := StopWaiter(c.runs[r].thread, ByRun(r))]))
  {
    var c' := c.(stopWaiters := c.stopWaiters[turn := StopWaiter(c.runs[r].thread, ByRun(r))]);
    forall q | q in c'.runs ensures RunOk(c', q) {
      assert RunOk(c, q);
    }
    forall t | t in c'.stopWaiters ensures StopOk(c', t) {
      assert t != turn ==> StopOk(c, t);
    }
    forall t | t in c'.turnWaiters ensures TurnOk(c', t) {
      assert TurnOk(c, t);
    }
  }

  lemma InterruptKeeps(c: Client, r: RunId)
    requires Inv(c) && r in c.runs && c.runs[r].stage.Rejected?
    ensures Inv(Interrupt(c, r))
  {
    var run := c.runs[r];
    assert RunOk(c, r);
    var turn := Correlated(c, run);
    if turn.None? {
      DeclareUnconfirmedKeeps(c, r);
    } else if KnownStopped(c, run.thread, turn.value) {
      RunChangeKeeps(c, r, c.runs[r].(stage := Answered(true)));
    } else {
      hide Inv, RunOk;
      InterruptingKeeps(c, r);
      NewStopWaiterKeeps(SetStage(c, r, Interrupting), r, turn.value);
    }
  }

  lemma FinallyKeeps(c: Client, r: RunId)
    requires Inv(c) && r in c.runs && !c.runs[r].stage.Waiting? && !c.runs[r].stage.Interrupting?
      && !c.runs[r].stage.Returned?
    requires !c.runs[r].stopped ==> c.runs[r].stage.Reporting?
    ensures Inv(Finally(c, r))
  {
    var run, c1 := c.runs[r], SetStage(c, r, Returned);
    assert RunOk(c, r);
    forall q | q in c1.runs ensures RunOk(c1, q) {
      assert RunOk(c, q);
    }
    forall t | t in c1.stopWaiters ensures StopOk(c1, t) {
      assert StopOk(c, t);
    }
    forall t | t in c1.turnWaiters ensures TurnOk(c1, t) {
      assert TurnOk(c, t);
    }
    if run.stopped {
      forall q | q in c1.runs && Holding(c1.runs[q]) ensures c1.runs[q].thread != run.thread {
        assert q != r && Holding(c.runs[q]) && Holding(c.runs[r]);
      }
      assert Inv(c1);
      hide Inv, RunOk, Free;
      FreeKeeps(c1, run.thread, Correlated(c, run));
    }
  }

  lemma AfterResolvedKeeps(c: Client, r: RunId, throws: bool)
    requires Inv(c) && r in c.runs && c.runs[r].stage.Resolved?
    ensures Inv(AfterResolved(c, r, throws))
  {
    var run := c.runs[r];
    assert RunOk(c, r);
    if throws {
      DeclareStoppedKeeps(c, r);
    } else {
      var run' := run.(stopped := true, correlated := Correlated(c, run));
      RunChangeKeeps(c, r, run');
      hide Inv;
      FinallyKeeps(c.(runs := c.runs[r := run']), r);
    }
  }

  lemma StopTimedOutKeeps(c: Client, r: RunId)
    requires Inv(c) && Enabled(c, StopTimedOut(r))
    ensures Inv(Handle(c, StopTimedOut(r)))
  {
    assert RunOk(c, r);
    var turn := Correlated(c, c.runs[r]);
    DropStopWaiterKeeps(c, turn.value);
    var c1 := c.(stopWaiters := c.stopWaiters - {turn.value});
    RunChangeKeeps(c1, r, c1.runs[r].(stage := Answered(false)));
  }

  lemma DropStopWaiterKeeps(c: Client, turn: TurnId)
    requires Inv(c)
    ensures Inv(c.(stopWaiters := c.stopWaiters - {turn}))
  {
    var c' := c.(stopWaiters := c.stopWaiters - {turn});
    forall q | q in c'.runs ensures RunOk(c', q) {
      assert RunOk(c, q);
    }
    forall t | t in c'.stopWaiters ensures StopOk(c', t) {
      assert StopOk(c, t);
    }
    forall t | t in c'.turnWaiters ensures TurnOk(c', t) {
      assert TurnOk(c, t);
    }
  }

  lemma GiveUpKeeps(c: Client, r: RunId, timedOut: bool)
    requires Inv(c) && Enabled(c, WaitAborted(r))
    ensures Inv(GiveUp(c, r, timedOut))
  {
    var turn := c.runs[r].turn.value;
    RemoveTurnWaiterKeeps(c, turn);
    assert KnownStopped(c, c.runs[r].thread, turn) ==> Evidence(c, c.runs[r].thread, c.runs[r].turn);
    hide Inv, RunOk;
    SettleWaitKeeps(RemoveTurnWaiter(c, turn), r, Rejected(KnownStopped(c, c.runs[r].thread, turn)));
    if KnownStopped(c, c.runs[r].thread, turn) { SettleWaitKeeps(RemoveTurnWaiter(c, turn), r, Resolved(COMPLETED)); }
  }

  // ---------------------------------------------------------------- notifications

  lemma ActivateKeeps(c: Client, thread: ThreadId, turn: TurnId)
    requires Inv(c) && thread in c.active && (c.active[thread].None? || c.active[thread] == Some(turn))
    ensures Inv(c.(active := c.active[thread := Some(turn)]))
  {
    var c' := c.(active := c.active[thread := Some(turn)]);
    forall q | q in c'.runs ensures RunOk(c', q) {
      assert RunOk(c, q);
    }
    forall t | t in c'.stopWaiters ensures StopOk(c', t) {
      assert StopOk(c, t);
      assert c.stopWaiters[t].owner.ByRun? ==> RunOk(c, c.stopWaiters[t].owner.run);
    }
    forall t | t in c'.turnWaiters ensures TurnOk(c', t) {
      assert TurnOk(c, t);
    }
  }

  lemma LateWaiterKeeps(c: Client, thread: ThreadId, turn: TurnId)
    requires Inv(c) && thread in c.unconfirmed && thread in c.active && c.active[thread] == Some(turn)
    ensures Inv(c.(stopWaiters := c.stopWaiters[turn := StopWaiter(thread, Late)]))
  {
    var c' := c.(stopWaiters := c.stopWaiters[turn := StopWaiter(thread, Late)]);
    forall q | q in c'.runs ensures RunOk(c', q) {
      assert RunOk(c, q);
    }
    forall t | t in c'.stopWaiters ensures StopOk(c', t) {
      assert t != turn ==> StopOk(c, t);
    }
    forall t | t in c'.turnWaiters ensures TurnOk(c', t) {
      assert TurnOk(c, t);
    }
  }

  lemma OnStartedKeeps(c: Client, thread: ThreadId, turn: TurnId)
    requires Inv(c)
    ensures Inv(OnStarted(c, thread, turn))
  {
    hide Inv;
    if thread in c.active && turn !in c.retired && (c.active[thread].None? || c.active[thread] == Some(turn)) {
      var c1 := c.(active := c.active[thread := Some(turn)]);
      ActivateKeeps(c, thread, turn);
      if thread in c.unconfirmed {
        SameButRetired(c1, AddReport(c1, Report(thread, Some(turn), true)));
        LateWaiterKeeps(c1, thread, turn);
      }
    }
  }

  lemma MoreTerminalKeeps(c: Client, thread: ThreadId, turn: TurnId)
    requires Inv(c)
    ensures Inv(c.(terminal := c.terminal + {(thread, turn)}))
  {
    var c' := c.(terminal := c.terminal + {(thread, turn)});
    forall q | q in c'.runs ensures RunOk(c', q) {
      assert RunOk(c, q);
    }
    forall t | t in c'.stopWaiters ensures StopOk(c', t) {
      assert StopOk(c, t);
    }
    forall t | t in c'.turnWaiters ensures TurnOk(c', t) {
      assert TurnOk(c, t);
    }
  }

  lemma AnswerStopKeeps(c: Client, thread: ThreadId, turn: TurnId)
    requires Inv(c) && (thread, turn) in c.terminal
    ensures Inv(AnswerStop(c, thread, turn))
  {
    if turn in c.stopWaiters && c.stopWaiters[turn].thread == thread {
      assert StopOk(c, turn);
      DropStopWaiterKeeps(c, turn);
      var c1 := c.(stopWaiters := c.stopWaiters - {turn});
      match c.stopWaiters[turn].owner {
        case ByRun(r) =>
          if c1.runs[r].stage.Interrupting? {
            assert RunOk(c, r);
            RunChangeKeeps(c1, r, c1.runs[r].(stage := Answered(true)));
          }
        case Late =>
          SameButRetired(c1, AnswerStop(c, thread, turn));
      }
    }
  }

  lemma NewCompletionKeeps(c: Client, thread: ThreadId, turn: TurnId, status: Status)
    requires Inv(c) && (thread, turn) in c.terminal
    ensures Inv(c.(completed := c.completed[turn := Completion(thread, status)]))
  {
    var c' := c.(completed := c.completed[turn := Completion(thread, status)]);
    forall q | q in c'.runs ensures RunOk(c', q) {
      assert RunOk(c, q);
    }
    forall t | t in c'.stopWaiters ensures StopOk(c', t) {
      assert StopOk(c, t);
    }
    forall t | t in c'.turnWaiters ensures TurnOk(c', t) {
      assert TurnOk(c, t);
    }
  }

  lemma LateProofKeeps(c: Client, thread: ThreadId, turn: TurnId)
    requires Inv(c) && thread in c.unconfirmed && thread in c.active && c.active[thread] == Some(turn)
      && (thread, turn) in c.terminal
    ensures Inv(Free(c, thread, Some(turn)))
  {
    forall r | r in c.runs && Holding(c.runs[r]) ensures c.runs[r].thread != thread {
      assert RunOk(c, r);
    }
    hide Inv, RunOk, Free;
    FreeKeeps(c, thread, Some(turn));
  }

  lemma RecordedKeeps(c: Client, thread: ThreadId, turn: TurnId, status: Status)
    requires Inv(c) && (thread, turn) in c.terminal
    ensures var c2 := AnswerStop(c, thread, turn);
      Inv(MaybeFinish(c2.(completed := c2.completed[turn := Completion(thread, status)]), turn))
  {
    hide Inv, RunOk, AnswerStop, MaybeFinish;
    AnswerStopKeeps(c, thread, turn);
    AnswerKeepsTerminal(c, thread, turn);
    var c2 := AnswerStop(c, thread, turn);
    NewCompletionKeeps(c2, thread, turn, status);
    MaybeFinishKeeps(c2.(completed := c2.completed[turn := Completion(thread, status)]), turn);
  }

  lemma OnCompletedKeeps(c0: Client, thread: ThreadId, turn: TurnId, status: Status)
    requires Inv(c0)
    ensures Inv(OnCompleted(c0, thread, turn, status))
  {
    hide Inv, RunOk, AnswerStop, MaybeFinish, Free;
    var c := c0.(terminal := c0.terminal + {(thread, turn)});
    MoreTerminalKeeps(c0, thread, turn);
    var current := thread in c.active && c.active[thread] == Some(turn);
    var c1 := if current then AddReport(c, Report(thread, Some(turn), true)) else c;
    SameButRetired(c, c1);
    if current && thread in c.unconfirmed {
      LateProofKeeps(c1, thread, turn);
    } else {
      RecordedKeeps(c1, thread, turn, status);
    }
  }

  lemma AnswerKeepsTerminal(c: Client, thread: ThreadId, turn: TurnId)
    ensures AnswerStop(c, thread, turn).terminal == c.terminal
  {
  }

  lemma OnUsageKeeps(c: Client, thread: ThreadId, turn: TurnId)
    requires Inv(c)
    ensures Inv(OnUsage(c, thread, turn))
  {
    if turn !in c.retired {
      var c' := c.(usage := c.usage[turn := thread]);
      forall q | q in c'.runs ensures RunOk(c', q) {
        assert RunOk(c, q);
      }
      forall t | t in c'.stopWaiters ensures StopOk(c', t) {
        assert StopOk(c, t);
      }
      forall t | t in c'.turnWaiters ensures TurnOk(c', t) {
        assert TurnOk(c, t);
      }
      assert Inv(c');
      hide Inv, RunOk;
      MaybeFinishKeeps(c', turn);
    }
  }

  lemma RejectAllKeeps(c: Client)
    requires Inv(c)
    ensures Inv(RejectAll(c))
  {
    var c' := RejectAll(c);
    forall q | q in c'.runs ensures RunOk(c', q) && Holding(c'.runs[q]) == Holding(c.runs[q])
      && c'.runs[q].thread == c.runs[q].thread {
      assert RunOk(c, q);
    }
  }

  /** Every event keeps the invariant. */
  lemma StepKeepsInv(c: Client, e: Event, c': Client)
    requires Inv(c) && Steps(c, e, c')
    ensures Inv(c')
  {
    hide Inv;
    match e {
      case Call(r, thread) => CallKeeps(c, r, thread);
      case AnnounceDone(r) => AnnounceDoneKeeps(c, r);
      case ContinueStart(r, strict, aborted) => BeginWaitKeeps(c, r, c.runs[r].stage.answer, strict, aborted);
      case ContinueResolved(r, throws) => AfterResolvedKeeps(c, r, throws);
      case WaitAborted(r) => GiveUpKeeps(c, r, false);
      case WaitTimedOut(r) => GiveUpKeeps(c, r, true);
      case GraceOver(r) => GraceOverKeeps(c, r);
      case StopTimedOut(r) => StopTimedOutKeeps(c, r);
      case LateTimedOut(turn) => DropStopWaiterKeeps(c, turn);
      case TurnStarted(thread, turn, envelope) => OnStartedKeeps(c, thread, turn);
      case TurnCompleted(thread, turn, status, envelope) =>
        OnCompletedKeeps(c, thread, turn, status);
        MoreTerminalKeeps(c, thread, turn);
      case UsageUpdated(thread, turn) => OnUsageKeeps(c, thread, turn);
      case ConnectionLost => RejectAllKeeps(c);
      case ProtocolFailed =>
        RejectAllKeeps(c);
        SameButRetired(RejectAll(c), c');
      case _ => SettledCallKeeps(c, e, c');
    }
  }

  lemma AnnounceDoneKeeps(c: Client, r: RunId)
    requires Inv(c) && Enabled(c, AnnounceDone(r))
    ensures Inv(Handle(c, AnnounceDone(r)))
  {
    assert RunOk(c, r);
    RunChangeKeeps(c, r, c.runs[r].(requested := true, stage := Requesting));
  }

  lemma GraceOverKeeps(c: Client, r: RunId)
    requires Inv(c) && Enabled(c, GraceOver(r))
    ensures Inv(Handle(c, GraceOver(r)))
  {
    assert RunOk(c, r);
    hide Inv;
    RemoveTurnWaiterKeeps(c, c.runs[r].turn.value);
    SettleWaitKeeps(RemoveTurnWaiter(c, c.runs[r].turn.value), r, Resolved(COMPLETED));
  }

  /** A call that has no turn yet goes on to another such stage. */
  lemma BeforeTurnKeeps(c: Client, r: RunId, stage: Stage)
    requires Inv(c) && r in c.runs && (stage.Responded? || stage.Rejected?)
    requires c.runs[r].stage.Announcing?
      || (stage != Rejected(true) && (c.runs[r].stage.Requesting? || c.runs[r].stage.Responded?))
    ensures Inv(SetStage(c, r, stage))
  {
    assert RunOk(c, r);
    RunChangeKeeps(c, r, c.runs[r].(stage := stage));
  }

  /** What a call that is past its wait may rely on. */
  lemma StoppedBehind(c: Client, r: RunId)
    requires Inv(c) && r in c.runs
    ensures var run := c.runs[r];
      && (run.stage.Answered? && run.stage.confirmed ==> Evidence(c, run.thread, Correlated(c, run)))
      && (run.stage.Rejected? && run.stage.confirmed && run.requested ==> Evidence(c, run.thread, Correlated(c, run)))
      && (!run.stage.Reporting? && !run.stage.Returned? && !run.stage.Resolved? ==> !run.stopped)
  {
    assert RunOk(c, r);
  }

  lemma SettledCallKeeps(c: Client, e: Event, c': Client)
    requires Inv(c) && Steps(c, e, c')
    requires e.AnnounceFailed? || e.StartAnswered? || e.StartFailed? || e.ContinueRejected? || e.ContinueStopped?
      || e.CallbackDone?
    ensures Inv(c')
  {
    hide Inv, RunOk, Interrupt, DeclareStopped, DeclareUnconfirmed, Finally;
    var r := e.run;
    var stage := c.runs[r].stage;
    StoppedBehind(c, r);
    match e {
      case AnnounceFailed(_, confirmed) => BeforeTurnKeeps(c, r, Rejected(confirmed));
      case StartAnswered(_, turn) => BeforeTurnKeeps(c, r, Responded(turn));
      case StartFailed(_) => BeforeTurnKeeps(c, r, Rejected(false));
      case ContinueRejected(_) => if stage.confirmed { DeclareStoppedKeeps(c, r); } else { InterruptKeeps(c, r); }
      case ContinueStopped(_) => if stage.confirmed { DeclareStoppedKeeps(c, r); }
        else { DeclareUnconfirmedKeeps(c, r); }
      case CallbackDone(_) => FinallyKeeps(c, r);
    }
  }

  lemma StartIsOk()
    ensures Inv(Start())
  {
  }

  lemma {:induction false} HistoryKeepsInv(states: seq<Client>, events: seq<Event>, n: nat)
    requires History(states, events) && n < |states|
    ensures Inv(states[n])
  {
    hide Inv, Steps;
    if n == 0 {
      StartIsOk();
    } else {
      HistoryKeepsInv(states, events, n - 1);
      assert Steps(states[n - 1], events[n - 1], states[n - 1 + 1]);
      StepKeepsInv(states[n - 1], events[n - 1], states[n]);
    }
  }
}
