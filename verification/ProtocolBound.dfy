/**
 * The concurrency bound (shared/control-plane/src/execution-service.ts:30-44): exactly which step breaks it, and
 * the hypothesis on takeovers under which none does.
 */
module ProtocolBound {
  import opened Bridge
  import opened WriteScopes
  import opened ControlStore
  import opened Protocol
  import opened ProtocolRows
  import opened ProtocolInvariant
  import opened ProtocolSafety
  import LM = LeaseManager
  import ES = ExecutionService

  // ---------------------------------------------------------------- the step that can break the bound

  /** The row holds no slot, and some limit, its own or that of a row that holds one, leaves no room for it. */
  predicate Overfills(s: Store, t: TaskId)
    requires t in s.executions
  {
    var e := s.executions[t];
    var n := |ES.Occupied(s, e.agent)|;
    && !Occupies(e)
    && (n >= e.maxConcurrency || exists u :: u in ES.Occupied(s, e.agent) && n >= s.executions[u].maxConcurrency)
  }

  /** How the slots of each agent change when the row of `t` becomes RUNNING. */
  lemma OccupiedGrows(s: Store, t: TaskId, agent: AgentId)
    requires t in s.executions && DecideTx(s, t, true).Ok?
    ensures var s', e := DecideTx(s, t, true).value, s.executions[t];
      ES.Occupied(s', agent) == if agent == e.agent then ES.Occupied(s, agent) + {t} else ES.Occupied(s, agent)
  {
  }

  lemma OverfullBreaks(s: Store, t: TaskId)
    requires t in s.executions && Overfills(s, t) && DecideTx(s, t, true).Ok?
    ensures !BoundKept(DecideTx(s, t, true).value)
  {
    hide BoundKept;
    var s', e := DecideTx(s, t, true).value, s.executions[t];
    OccupiedGrows(s, t, e.agent);
    assert t !in ES.Occupied(s, e.agent);
    if e.maxConcurrency <= |ES.Occupied(s, e.agent)| {
      TooMany(s', t);
    } else {
      var u :| u in ES.Occupied(s, e.agent) && |ES.Occupied(s, e.agent)| >= s.executions[u].maxConcurrency;
      TooMany(s', u);
    }
  }

  lemma TooMany(s: Store, t: TaskId)
    requires t in s.executions && Occupies(s.executions[t])
    requires |ES.Occupied(s, s.executions[t].agent)| > s.executions[t].maxConcurrency
    ensures !BoundKept(s)
  {
  }

  lemma RoomKeeps(s: Store, t: TaskId)
    requires BoundKept(s) && t in s.executions && !Overfills(s, t) && DecideTx(s, t, true).Ok?
    ensures BoundKept(DecideTx(s, t, true).value)
  {
    var s', e := DecideTx(s, t, true).value, s.executions[t];
    forall u | u in s'.executions && Occupies(s'.executions[u])
      ensures |ES.Occupied(s', s'.executions[u].agent)| <= s'.executions[u].maxConcurrency
    {
      OccupiedGrows(s, t, s.executions[u].agent);
      if u != t {
        assert s'.executions[u] == s.executions[u] && u in ES.Occupied(s, s.executions[u].agent);
      }
      if Occupies(e) { assert ES.Occupied(s, e.agent) + {t} == ES.Occupied(s, e.agent); }
    }
  }

  /**
   * A stop decision with evidence makes its row RUNNING without admission; the bound survives exactly when there is
   * room.
   */
  lemma DecideKeepsBoundExactly(s: Store, t: TaskId)
    requires BoundKept(s) && t in s.executions
    ensures DecideTx(s, t, true).Ok? && (BoundKept(DecideTx(s, t, true).value) <==> !Overfills(s, t))
  {
    hide BoundKept, Overfills;
    if Overfills(s, t) { OverfullBreaks(s, t); } else { RoomKeeps(s, t); }
  }

  /** The stop decision whose own row was stopped behind its back, and for which there is no room any more. */
  ghost predicate OverfillingStep(c: System, step: Step) {
    step.Decide? && step.evidence && step.t in c.store.executions && Overfills(c.store, step.t)
  }

  /** Every step of every process keeps the bound, except exactly this one. */
  lemma StepKeepsBoundExactly(c: System, step: Step, c': System)
    requires Inv(c) && BoundKept(c.store) && Next(c, step) == Ok(c')
    ensures BoundKept(c'.store) <==> !OverfillingStep(c, step)
  {
    if step.Decide? {
      DecideStep(c, step, c');
      if step.evidence {
        DecideKeepsBoundExactly(c.store, step.t);
      } else {
        BoundShrinks(c.store, c'.store);
      }
    } else if step.Admit? {
      AdmitStep(c, step.t, c');
    } else {
      hide Next, Inv, BoundKept;
      TakesNoSlot(c, step, c');
      BoundShrinks(c.store, c'.store);
    }
  }

  lemma TakesNoSlot(c: System, step: Step, c': System)
    requires Inv(c) && Next(c, step) == Ok(c') && !step.Decide? && !step.Admit?
    ensures NoNewSlot(c.store, c'.store)
  {
    hide Inv;
    match step {
      case Reconcile(agent) => ReconcileStep(c, agent);
      case Enqueue(t, attempt, holder, maxConcurrency, g, pid) => EnqueueStep(c, t, attempt, holder, maxConcurrency, g,
        pid);
      case Launch(_, _, _, _, _) => LaunchStep(c, step, c');
      case PrepareRecovery(t, attempt, holder, maxConcurrency, g, pid, id, scope, ttl) =>
        PrepareRecoveryStep(c, t, attempt, holder, maxConcurrency, g, pid, id, scope, ttl, c');
      case LaunchRecovery(_) => RunsOnStep(c, step, c');
      case ReportRunning(_) => RunsOnStep(c, step, c');
      case ReportUnconfirmed(_) => ReportStep(c, step, c');
      case ReportStopped(_) => ReportStep(c, step, c');
      case Commit(_) => CommitStep(c, step, c');
      case Cancel(t) => CancelStep(c, t, c');
      case TakeOver(_, _, _) => TakeOverStep(c, step, c');
      case _ =>
        if step.StopWaiting? || step.Abandon? || step.AbandonRecovery? { AbandonStep(c, step, c'); }
        else if step.ToolAcquire? || step.ToolRenew? || step.ToolRelease? { ToolStep(c, step, c'); }
        else { SweepStep(c, step, c'); }
    }
  }

  /** A run keeps the bound up to some state exactly when no step before it is an overfilling decision. */
  lemma {:induction false} BoundUntilOverfilled(states: seq<System>, steps: seq<Step>, i: nat)
    requires Run(states, steps) && i < |states|
    ensures (forall j :: 0 <= j <= i ==> BoundKept(states[j].store)) <==>
      (forall j :: 0 <= j < i ==> !OverfillingStep(states[j], steps[j]))
  {
    hide Next, Inv, BoundKept, OverfillingStep;
    if i == 0 {
      NothingOccupied(states[0]);
    } else {
      BoundUntilOverfilled(states, steps, i - 1);
      RunKeepsInv(states, steps, i - 1);
      assert Next(states[i - 1], steps[i - 1]) == Ok(states[i - 1 + 1]);
      if BoundKept(states[i - 1].store) { StepKeepsBoundExactly(states[i - 1], steps[i - 1], states[i]); }
    }
  }

  lemma NothingOccupied(c: System)
    requires Initial(c)
    ensures BoundKept(c.store)
  {
  }

  // ---------------------------------------------------------------- takeovers that find the execution's process dead

  /** The rows of living executors that have launched and not yet decided against a stop are RUNNING. */
  ghost predicate Undisturbed(c: System) {
    forall t :: At(c, t, {Launched, Decided(true)}) ==> c.store.executions[t].phase == RUNNING
  }

  /** The takeover meets an execution whose own process is dead, which `reserveTask` does not test. */
  predicate MeetsDead(c: System, step: Step) {
    step.TakeOver? && step.t in c.store.executions ==> c.store.executions[step.t].pid in c.dead
  }

  lemma ReconcileUndisturbed(c: System, agent: Option<AgentId>)
    requires Undisturbed(c)
    ensures Undisturbed(c.(store := ES.Reconcile(c.store, agent, c.dead)))
  {
    hide ES.ReconciledLease;
    var c' := c.(store := ES.Reconcile(c.store, agent, c.dead));
    forall t | At(c', t, {Launched, Decided(true)}) ensures c'.store.executions[t].phase == RUNNING {
      assert c'.store.executions[t] == ES.ReconciledExecution(c.store.executions[t], agent, c.dead);
      assert At(c, t, {Launched, Decided(true)});
    }
  }

  /** One row and the stage of its generation change. */
  lemma RowUndisturbed(c: System, c': System, t: TaskId)
    requires Undisturbed(c) && ES.DistinctGenerations(c'.store) && c'.dead == c.dead && t in c'.store.executions
    requires forall u :: u in c'.store.executions && u != t ==>
      u in c.store.executions && c'.store.executions[u] == c.store.executions[u]
    requires forall g :: g in c'.stages && g != c'.store.executions[t].generation ==>
      g in c.stages && c'.stages[g] == c.stages[g]
    requires At(c', t, {Launched, Decided(true)}) ==> c'.store.executions[t].phase == RUNNING
    ensures Undisturbed(c')
  {
    forall u | At(c', u, {Launched, Decided(true)}) ensures c'.store.executions[u].phase == RUNNING {
      if u != t { assert At(c, u, {Launched, Decided(true)}); }
    }
  }

  lemma QueueUndisturbed(c: System, step: Step, c': System)
    requires Inv(c') && Undisturbed(c) && Next(c, step) == Ok(c') && (step.Enqueue? || step.PrepareRecovery?)
    ensures Undisturbed(c')
  {
    hide Next, Inv;
    StepQueuesRow(c, step, c');
    GenerationsDiffer(c');
    RowUndisturbed(c, c', step.t);
  }

  lemma GenerationsDiffer(c: System)
    requires Inv(c)
    ensures ES.DistinctGenerations(c.store)
  {
  }

  lemma AdmitUndisturbed(c: System, t: TaskId, c': System)
    requires Inv(c') && Undisturbed(c) && Next(c, Admit(t)) == Ok(c')
    ensures Undisturbed(c')
  {
    hide Next, Inv, ES.Reconcile, ES.SlotFree, ES.Head;
    StepAdmits(c, t, c');
    var agent := Some(c.store.executions[t].agent);
    ReconcileUndisturbed(c, agent);
    GenerationsDiffer(c');
    var c1 := c.(store := ES.Reconcile(c.store, agent, c.dead));
    if c'.store != c1.store { RowUndisturbed(c1, c', t); }
  }

  /** A row of a living executor that has launched, and has not decided against a stop, is written as RUNNING. */
  lemma RowStaysRunning(c: System, step: Step, e: Execution, e': Execution)
    requires ChangesRow(step) && RowBecomes(c, step, e, e') && e.pid !in c.dead && MeetsDead(c, step)
    requires step.t in c.store.executions && e == c.store.executions[step.t]
    requires At(c, step.t, {Launched, Decided(true)}) ==> e.phase == RUNNING
    requires if StageOf(step).None? then At(c, step.t, {Launched, Decided(true)})
      else StageOf(step) in {Some(Launched), Some(Decided(true))}
    ensures e'.phase == RUNNING
  {
  }

  lemma OwnRowUndisturbed(c: System, step: Step, c': System)
    requires ChangesRow(step) && OneRow(c, step, c') && step.t in c.store.executions && MeetsDead(c, step)
    requires At(c, step.t, {Launched, Decided(true)}) ==> c.store.executions[step.t].phase == RUNNING
    requires At(c', step.t, {Launched, Decided(true)})
    ensures c'.store.executions[step.t].phase == RUNNING
  {
    hide RowBecomes, MeetsDead;
    var e, e' := c.store.executions[step.t], c'.store.executions[step.t];
    RowKeepsIdentity(c, step, e, e');
    RowStaysRunning(c, step, e, e');
  }

  lemma OneRowUndisturbed(c: System, step: Step, c': System)
    requires Inv(c') && Undisturbed(c) && Next(c, step) == Ok(c') && MeetsDead(c, step) && ChangesRow(step)
    ensures Undisturbed(c')
  {
    hide Next, Inv, RowBecomes, MeetsDead, At;
    StepWritesOneRow(c, step, c');
    GenerationsDiffer(c');
    var t := step.t;
    if t !in c.store.executions {
      assert c'.store.executions == c.store.executions;
      KeptUndisturbed(c, c');
    } else {
      RowKeepsIdentity(c, step, c.store.executions[t], c'.store.executions[t]);
      if At(c', t, {Launched, Decided(true)}) { OwnRowUndisturbed(c, step, c'); }
      hide Undisturbed;
      RowUndisturbed(c, c', t);
    }
  }

  lemma KeptUndisturbed(c: System, c': System)
    requires Undisturbed(c) && c'.store.executions == c.store.executions && c'.stages == c.stages && c.dead <= c'.dead
    ensures Undisturbed(c')
  {
    forall t | At(c', t, {Launched, Decided(true)}) ensures c'.store.executions[t].phase == RUNNING {
      assert At(c, t, {Launched, Decided(true)});
    }
  }

  lemma StepUndisturbed(c: System, step: Step, c': System)
    requires Inv(c) && Undisturbed(c) && Next(c, step) == Ok(c') && MeetsDead(c, step)
    ensures Undisturbed(c')
  {
    hide Next, Inv, Undisturbed, MeetsDead;
    StepKeepsInv(c, step, c');
    if step.Reconcile? {
      StepReconciles(c, step.agent, c');
      ReconcileUndisturbed(c, step.agent);
    } else if step.Admit? {
      AdmitUndisturbed(c, step.t, c');
    } else if step.Enqueue? || step.PrepareRecovery? {
      QueueUndisturbed(c, step, c');
    } else if KeepsRows(step) {
      StepKeepsRows(c, step, c');
      KeptUndisturbed(c, c');
    } else {
      OneRowUndisturbed(c, step, c');
    }
  }

  /** An undisturbed executor holds its slot when it decides. */
  lemma DecidesInItsSlot(c: System, step: Step, c': System)
    requires Undisturbed(c) && Next(c, step) == Ok(c')
    ensures !OverfillingStep(c, step)
  {
    if step.Decide? { assert At(c, step.t, {Launched, Decided(true)}); }
  }

  /**
   * In every state of a run whose takeovers find the execution's own process dead, an agent occupies at most as many
   * slots, quarantined ones included, as each occupying execution declares.
   */
  lemma {:induction false} ConcurrencyBound(states: seq<System>, steps: seq<Step>, i: nat)
    requires Run(states, steps) && i < |states|
    requires forall j :: 0 <= j < |steps| ==> MeetsDead(states[j], steps[j])
    ensures BoundKept(states[i].store) && Undisturbed(states[i])
  {
    hide Next, Inv, BoundKept, Undisturbed, OverfillingStep, MeetsDead;
    if i == 0 {
      NothingOccupied(states[0]);
      NobodyDisturbed(states[0]);
    } else {
      ConcurrencyBound(states, steps, i - 1);
      RunKeepsInv(states, steps, i - 1);
      assert Next(states[i - 1], steps[i - 1]) == Ok(states[i - 1 + 1]);
      DecidesInItsSlot(states[i - 1], steps[i - 1], states[i]);
      StepKeepsBoundExactly(states[i - 1], steps[i - 1], states[i]);
      StepUndisturbed(states[i - 1], steps[i - 1], states[i]);
    }
  }

  lemma NobodyDisturbed(c: System)
    requires Initial(c)
    ensures Undisturbed(c)
  {
  }
}
