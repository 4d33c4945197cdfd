/**
 * What each step of the control plane does to the execution rows and to the stages
 * (shared/control-plane/src/orchestrator.ts). The proofs over runs rest on these shapes.
 */
module ProtocolRows {
  import opened Bridge
  import opened WriteScopes
  import opened ControlStore
  import opened Protocol
  import LM = LeaseManager
  import ES = ExecutionService

  /** The steps that write the row of one existing execution. */
  predicate ChangesRow(step: Step) {
    || step.Launch? || step.StopWaiting? || step.Abandon? || step.LaunchRecovery? || step.AbandonRecovery?
    || step.ReportRunning? || step.ReportUnconfirmed? || step.ReportStopped? || step.Decide? || step.Commit?
    || step.Cancel? || step.TakeOver?
  }

  /** The steps that write no row. */
  predicate KeepsRows(step: Step) {
    step.Tick? || step.Crash? || step.TaskChange? || step.Reap? || step.ToolAcquire? || step.ToolRenew?
      || step.ToolRelease?
  }

  function Stopped(e: Execution): Execution {
    e.(phase := STOPPED, stopConfirmed := true)
  }

  /** The row of a cancelled task whose execution had not been launched, or had stopped. */
  function StoppedRow(e: Execution): Execution {
    Stopped(e).(cancelled := e.cancelled || e.phase != STOPPED)
  }

  /** The row names a lease that is held and has not timed out. */
  predicate RunsInside(s: Store, e: Execution, now: int) {
    && e.lease.Some? && e.lease.value in s.leases
    && s.leases[e.lease.value].state == HELD && s.leases[e.lease.value].expiresAt > now
  }

  /** The row a step writes, given the one it finds, and when it may find it. */
  predicate RowBecomes(c: System, step: Step, e: Execution, e': Execution)
    requires ChangesRow(step)
  {
    var t := step.t;
    match step
    case Launch(_, id, _, _, _) =>
      At(c, t, {Preparing}) && e.phase == RUNNING && e.lease.None?
        && e' == e.(stopConfirmed := false, lease := Some(id))
    case StopWaiting(_) => At(c, t, {Preparing}) && e' == Stopped(e)
    case Abandon(_) => At(c, t, {Preparing}) && e.lease.None? && e' == Stopped(e)
    case LaunchRecovery(_) =>
      && At(c, t, {Preparing}) && e.phase == RUNNING && RunsInside(c.store, e, c.now)
      && e' == e.(stopConfirmed := false)
    case AbandonRecovery(_) => At(c, t, {Preparing}) && e.lease.Some? && e' == Stopped(e)
    case ReportRunning(_) =>
      && AfterLaunch(c, t) && e.phase == RUNNING && RunsInside(c.store, e, c.now)
      && e' == e.(stopConfirmed := false)
    case ReportUnconfirmed(_) => AfterLaunch(c, t) && !e.stopConfirmed && e' == e
    case ReportStopped(_) =>
      && AfterLaunch(c, t)
      && e' == if e.stopConfirmed then e else if e.phase == Phase.QUARANTINED then Stopped(e)
        else e.(stopConfirmed := true)
    case Decide(_, evidence) =>
      && At(c, t, {Launched}) && (e.stopConfirmed ==> evidence)
      && e' == e.(phase := if evidence then RUNNING else Phase.QUARANTINED, stopConfirmed := evidence)
    case Commit(_) =>
      && At(c, t, {Decided(true), Decided(false)}) && e.lease.Some?
      && (e' == e || (At(c, t, {Decided(true)}) && e' == Stopped(e)))
    case Cancel(_) => e' == if e.phase == QUEUED || e.phase == STOPPED then StoppedRow(e) else e.(cancelled := true)
    case TakeOver(_, _, authorized) =>
      e' == if authorized then (if e.stopConfirmed then e else e.(phase := Phase.QUARANTINED))
        else if e.phase == QUEUED || (e.phase == RUNNING && e.stopConfirmed) then e.(phase := STOPPED) else e
  }

  predicate AfterLaunch(c: System, t: TaskId) {
    At(c, t, {Launched, Decided(true), Decided(false), Finished})
  }

  /** The stage a step writes for the generation it finds, if it writes one. */
  function StageOf(step: Step): Option<Stage> {
    match step
    case Launch(_, _, _, _, _) => Some(Launched)
    case LaunchRecovery(_) => Some(Launched)
    case StopWaiting(_) => Some(Preparing)
    case Abandon(_) => Some(Finished)
    case AbandonRecovery(_) => Some(Finished)
    case Decide(_, evidence) => Some(Decided(evidence))
    case Commit(_) => Some(Finished)
    case _ => None
  }

  /** Only the row of `t` may differ. */
  ghost predicate OtherRowsStay(s: Store, s': Store, t: TaskId) {
    && s'.executions.Keys == s.executions.Keys
    && forall u :: u in s.executions && u != t ==> s'.executions[u] == s.executions[u]
  }

  ghost predicate OneRow(c: System, step: Step, c': System)
    requires ChangesRow(step)
  {
    && c'.now == c.now && c'.dead == c.dead && OtherRowsStay(c.store, c'.store, step.t)
    && if step.t !in c.store.executions then c'.stages == c.stages
       else
         && RowBecomes(c, step, c.store.executions[step.t], c'.store.executions[step.t])
         && c'.stages == if StageOf(step).None? then c.stages
            else c.stages[c.store.executions[step.t].generation := StageOf(step).value]
  }

  /** No step gives a row another identity. */
  lemma RowKeepsIdentity(c: System, step: Step, e: Execution, e': Execution)
    requires ChangesRow(step) && RowBecomes(c, step, e, e')
    ensures e'.generation == e.generation && e'.pid == e.pid && e'.agent == e.agent && e'.attempt == e.attempt
    ensures e'.ticket == e.ticket && e'.maxConcurrency == e.maxConcurrency
    ensures !step.Launch? ==> e'.lease == e.lease
  {
    hide At;
  }

  /** Lease operations leave the executions alone. */
  lemma LeasesOnly(s: Store, id: LeaseId, holder: AgentId)
    ensures LM.Release(s, id, holder).Ok? ==> LM.Release(s, id, holder).value.executions == s.executions
    ensures LM.Quarantine(s, id, holder).Ok? ==> LM.Quarantine(s, id, holder).value.executions == s.executions
    ensures LM.ConfirmStopped(s, id, holder).Ok? ==> LM.ConfirmStopped(s, id, holder).value.executions == s.executions
  {
  }

  lemma LaunchRow(c: System, step: Step, c': System)
    requires Next(c, step) == Ok(c') && (step.Launch? || step.LaunchRecovery?)
    ensures OneRow(c, step, c')
  {
    hide Conflict, Stored, LM.FindConflicts;
  }

  lemma AbandonRow(c: System, step: Step, c': System)
    requires Next(c, step) == Ok(c') && (step.StopWaiting? || step.Abandon? || step.AbandonRecovery?)
    ensures OneRow(c, step, c')
  {
    hide Conflict, Stored, LM.Release;
    var e := c.store.executions[step.t];
    if step.AbandonRecovery? { LeasesOnly(PutExecution(c.store, step.t, Stopped(e)), e.lease.value, e.agent); }
  }

  lemma ReportRow(c: System, step: Step, c': System)
    requires Next(c, step) == Ok(c')
    requires step.ReportRunning? || step.ReportUnconfirmed? || step.ReportStopped? || step.Decide?
    ensures OneRow(c, step, c')
  {
    hide Conflict, Stored, ReportStoppedTx;
    if step.ReportStopped? { ReportStoppedTxRow(c.store, step.t); }
  }

  lemma ReportStoppedTxRow(s: Store, t: TaskId)
    requires t in s.executions && ReportStoppedTx(s, t).Ok?
    ensures var e, s' := s.executions[t], ReportStoppedTx(s, t).value;
      && OtherRowsStay(s, s', t)
      && s'.executions[t] == if e.stopConfirmed then e else if e.phase == Phase.QUARANTINED then Stopped(e)
        else e.(stopConfirmed := true)
  {
    hide LM.ConfirmStopped;
    var e := s.executions[t];
    if e.lease.Some? { LeasesOnly(PutExecution(s, t, Stopped(e)), e.lease.value, e.agent); }
  }

  lemma CommitRow(c: System, step: Step, c': System)
    requires Next(c, step) == Ok(c') && step.Commit?
    ensures OneRow(c, step, c')
  {
    hide Conflict, Stored, LM.Release, LM.Quarantine;
    var e := c.store.executions[step.t];
    LeasesOnly(PutExecution(c.store, step.t, Stopped(e)), e.lease.value, e.agent);
    LeasesOnly(c.store, e.lease.value, e.agent);
  }

  lemma TakeOverRow(c: System, step: Step, c': System)
    requires Next(c, step) == Ok(c') && step.TakeOver?
    ensures OneRow(c, step, c')
  {
    hide Conflict, Stored, LM.Quarantine;
    var e := c.store.executions[step.t];
    if e.lease.Some? {
      LeasesOnly(PutExecution(c.store, step.t, e.(phase := Phase.QUARANTINED)), e.lease.value, e.agent);
    }
  }

  lemma CancelRow(c: System, step: Step, c': System)
    requires Next(c, step) == Ok(c') && step.Cancel?
    ensures OneRow(c, step, c')
  {
    hide CancelTx;
    CancelTxRow(c.store, step.t);
  }

  lemma CancelTxRow(s: Store, t: TaskId)
    requires CancelTx(s, t).Ok?
    ensures OtherRowsStay(s, CancelTx(s, t).value, t)
    ensures t in s.executions ==>
      var e := s.executions[t];
      CancelTx(s, t).value.executions[t] == if e.phase == QUEUED
        || e.phase == STOPPED then StoppedRow(e) else e.(cancelled := true)
  {
    hide LM.Release;
    if t in s.executions {
      var e, s1 := s.executions[t], ES.RequestCancel(s, t);
      assert Stopped(s1.executions[t]) == StoppedRow(e);
      if e.lease.Some? { LeasesOnly(PutExecution(s1, t, Stopped(s1.executions[t])), e.lease.value, e.agent); }
    }
  }

  /** Each of these steps writes at most the row of its task and the stage of that row's generation. */
  lemma StepWritesOneRow(c: System, step: Step, c': System)
    requires Next(c, step) == Ok(c') && ChangesRow(step)
    ensures OneRow(c, step, c')
  {
    hide Next, OneRow;
    if step.Launch? || step.LaunchRecovery? {
      LaunchRow(c, step, c');
    } else if step.StopWaiting? || step.Abandon? || step.AbandonRecovery? {
      AbandonRow(c, step, c');
    } else if step.Commit? {
      CommitRow(c, step, c');
    } else if step.TakeOver? {
      TakeOverRow(c, step, c');
    } else if step.Cancel? {
      CancelRow(c, step, c');
    } else {
      ReportRow(c, step, c');
    }
  }

  // ---------------------------------------------------------------- the other steps

  lemma StepKeepsRows(c: System, step: Step, c': System)
    requires Next(c, step) == Ok(c') && KeepsRows(step)
    ensures c'.store.executions == c.store.executions && c'.stages == c.stages && c.dead <= c'.dead && c.now <= c'.now
  {
    hide Conflict, Stored, LM.FindConflicts, LM.Reaped;
  }

  lemma StepReconciles(c: System, agent: Option<AgentId>, c': System)
    requires Next(c, Reconcile(agent)) == Ok(c')
    ensures c' == c.(store := ES.Reconcile(c.store, agent, c.dead))
  {
    hide ES.Reconcile;
  }

  /** A new generation waits in place of a stopped one, with the next ticket and its stop evidence. */
  ghost predicate NewRow(c: System, step: Step, c': System)
    requires step.Enqueue? || step.PrepareRecovery?
  {
    && c'.now == c.now && c'.dead == c.dead && step.g !in c.stages && c'.stages == c.stages[step.g := Preparing]
    && (step.t in c.store.executions ==> c.store.executions[step.t].phase == STOPPED)
    && c'.store.executions ==
      c.store.executions[step.t := Execution(step.attempt, step.holder, step.g, QUEUED, step.pid,
         step.maxConcurrency, ES.MaxTicket(c.store.executions) + 1, true,
         if step.PrepareRecovery? then Some(step.id) else None, false)]
  }

  lemma StepQueuesRow(c: System, step: Step, c': System)
    requires Next(c, step) == Ok(c') && (step.Enqueue? || step.PrepareRecovery?)
    ensures NewRow(c, step, c')
  {
    hide Conflict, Stored, LM.FindConflicts, ES.QueuedOf, RecoveryRefused;
  }

  /** An attempt at admission reconciles, and then makes at most the head of the queue RUNNING. */
  ghost predicate AdmittedRow(c: System, t: TaskId, c': System) {
    && At(c, t, {Preparing})
    && var r := ES.Reconcile(c.store, Some(c.store.executions[t].agent), c.dead);
      && t in r.executions
      && (c' == c.(store := r)
          || (ES.Head(r, t, c.store.executions[t].agent)
            && ES.SlotFree(r, c.store.executions[t].maxConcurrency, c.store.executions[t].agent)
              && c' == c.(store := PutExecution(r, t, r.executions[t].(phase := RUNNING)))))
  }

  lemma StepAdmits(c: System, t: TaskId, c': System)
    requires Next(c, Admit(t)) == Ok(c')
    ensures AdmittedRow(c, t, c')
  {
    hide Conflict, Stored, ES.Reconcile, ES.SlotFree, ES.Head;
  }
}
