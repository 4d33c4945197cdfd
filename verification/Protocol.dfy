/**
 * The control plane as a step system: leases, executions and the transactions of the orchestrator
 * (shared/control-plane/src/orchestrator.ts), run by processes that may crash.
 *
 * Every step is one store transaction, a tick of the clock, or the death of a process. A process that is
 * reported dead takes no further step.
 */
module Protocol {
  import opened Bridge
  import opened WriteScopes
  import opened ControlStore
  import LM = LeaseManager
  import ES = ExecutionService

  /** Where the executor of a generation stands in its program. */
  datatype Stage = Preparing | Launched | Decided(stopped: bool) | Finished

  /** `stages` has an entry for every generation ever created; `dead` holds the processes reported dead. */
  datatype System = System(store: Store, now: int, dead: set<Pid>, stages: map<Generation, Stage>)

  const STOP: ES.Patch := ES.Patch(Some(STOPPED), Some(true), None)

  // ---------------------------------------------------------------- transactions

  /** The launch transaction of `runAttempt`: acquire the lease and give up the stop evidence. */
  function LaunchTx(s: Store, t: TaskId, id: LeaseId, scope: seq<string>, ttl: int, readAt: int,
      now: int): Result<Store>
    requires t in s.executions
  {
    var e := s.executions[t];
    if e.cancelled then Err(TASK_CANCELLED)
    else
      var s1 :- LM.Acquire(s, s, id, t, e.agent, scope, ttl, readAt, now);
      ES.Update(s1, t, e, ES.Patch(None, Some(false), Some(id)))
  }

  /** The leases `prepareRecovery` refuses to recover beside: any live lease of the task, or one in conflict. */
  predicate RecoveryRefused(s: Store, t: TaskId, scope: seq<string>, now: int) {
    exists id :: id in s.leases && LM.IsLive(s, id, now)
      && (s.leases[id].task == t || Conflict(scope, s.leases[id].scope))
  }

  /** `prepareRecovery`: queue a new generation and reserve a fresh lease for it. */
  ghost function PrepareRecoveryTx(s: Store, t: TaskId, attempt: nat, agent: AgentId, maxConcurrency: int,
      g: Generation, pid: Pid,
    id: LeaseId, scope: seq<string>, ttl: int, now: int): Result<Store>
  {
    if RecoveryRefused(s, t, scope, now) then Err(SCOPE_CONFLICT)
    else
      var s1 :- ES.Queue(s, t, attempt, agent, maxConcurrency, g, pid);
      var s2 :- LM.Acquire(s1, s1, id, t, agent, scope, ttl, now, now);
      ES.Update(s2, t, s2.executions[t], ES.Patch(None, None, Some(id)))
  }

  /** The launch transaction of `executeRecovery`, which relies on the reserved lease without looking at it. */
  function LaunchRecoveryTx(s: Store, t: TaskId): Result<Store>
    requires t in s.executions
  {
    var e := s.executions[t];
    if e.cancelled then Err(TASK_CANCELLED)
    else ES.Update(s, t, e, ES.Patch(None, Some(false), None))
  }

  /** The failure branch of `executeRecovery` before launch. */
  function AbandonRecoveryTx(s: Store, t: TaskId): Result<Store>
    requires t in s.executions && s.executions[t].lease.Some?
  {
    var e := s.executions[t];
    if !e.stopConfirmed then Err(RUNTIME_STOP_UNCONFIRMED)
    else
      var s1 :- ES.Update(s, t, e, STOP);
      LM.Release(s1, e.lease.value, e.agent)
  }

  /** `reportRuntimeState("stopped")`. */
  function ReportStoppedTx(s: Store, t: TaskId): Result<Store>
    requires t in s.executions
  {
    var e := s.executions[t];
    if e.stopConfirmed then Ok(s)
    else
      var quarantined := e.phase == Phase.QUARANTINED;
      var s1 :- ES.Update(s, t, e, ES.Patch(if quarantined then Some(STOPPED) else None, Some(true), None));
      if quarantined && e.lease.Some? then LM.ConfirmStopped(s1, e.lease.value, e.agent) else Ok(s1)
  }

  /** The stop decision of `performInvocation`. */
  function DecideTx(s: Store, t: TaskId, stopped: bool): Result<Store>
    requires t in s.executions
  {
    ES.Update(s, t, s.executions[t],
      ES.Patch(Some(if stopped then RUNNING else Phase.QUARANTINED), Some(stopped), None))
  }

  /** The lease and execution part of `commit` in `performInvocation`. */
  function CommitTx(s: Store, t: TaskId, stopped: bool): Result<Store>
    requires t in s.executions && s.executions[t].lease.Some?
  {
    var e := s.executions[t];
    if stopped then
      var s1 :- ES.Update(s, t, e, STOP);
      LM.Release(s1, e.lease.value, e.agent)
    else LM.Quarantine(s, e.lease.value, e.agent)
  }

  /** The transaction of `cancelTask`. */
  function CancelTx(s: Store, t: TaskId): Result<Store> {
    var s1 := ES.RequestCancel(s, t);
    if t !in s1.executions then Ok(s1)
    else
      var e := s1.executions[t];
      if e.phase != QUEUED && e.phase != STOPPED then Ok(s1)
      else
        var s2 :- ES.Update(s1, t, e, STOP);
        if e.lease.Some? && e.lease.value in s2.leases && s2.leases[e.lease.value].state == HELD
        then LM.Release(s2, e.lease.value, e.agent)
        else Ok(s2)
  }

  /** What `reserveTask` does to the execution when it finds the operation's executor dead. */
  function TakeOverTx(s: Store, t: TaskId, authorized: bool): Result<Store>
    requires t in s.executions
  {
    var e := s.executions[t];
    if !authorized then
      if e.phase == QUEUED || (e.phase == RUNNING && e.stopConfirmed)
      then ES.Update(s, t, e, ES.Patch(Some(STOPPED), None, None))
      else Ok(s)
    else if e.stopConfirmed then Ok(s)
    else
      var s1 :- ES.Update(s, t, e, ES.Patch(Some(Phase.QUARANTINED), None, None));
      if e.lease.Some? then LM.Quarantine(s1, e.lease.value, e.agent) else Ok(s1)
  }

  // ---------------------------------------------------------------- steps

  /**
   * `ToolAcquire` is the transaction of `acquire`; its first check only refuses more. `ToolRelease` stands for every
   * release outside the other transactions, that of recovery replay included. `StopWaiting` is the end of a wait for
   * admission by cancellation or deadline. `TakeOver` names the process of the reservation that is taken over.
   */
  datatype Step =
    | Tick(to: int)
    | Crash(pid: Pid)
    | TaskChange(tasks: map<TaskId, TaskView>)
    | ToolAcquire(id: LeaseId, t: TaskId, holder: AgentId, scope: seq<string>, ttl: int, readAt: int)
    | ToolRenew(id: LeaseId, holder: AgentId, ttl: int)
    | ToolRelease(id: LeaseId, holder: AgentId)
    | Reap
    | Reconcile(agent: Option<AgentId>)
    | Enqueue(t: TaskId, attempt: nat, holder: AgentId, maxConcurrency: int, g: Generation, pid: Pid)
    | Admit(t: TaskId)
    | Launch(t: TaskId, id: LeaseId, scope: seq<string>, ttl: int, readAt: int)
    | StopWaiting(t: TaskId)
    | Abandon(t: TaskId)
    | PrepareRecovery(t: TaskId, attempt: nat, holder: AgentId, maxConcurrency: int, g: Generation, pid: Pid,
        id: LeaseId, scope: seq<string>, ttl: int)
    | LaunchRecovery(t: TaskId)
    | AbandonRecovery(t: TaskId)
    | ReportRunning(t: TaskId)
    | ReportUnconfirmed(t: TaskId)
    | ReportStopped(t: TaskId)
    | Decide(t: TaskId, evidence: bool)
    | Commit(t: TaskId)
    | Cancel(t: TaskId)
    | TakeOver(t: TaskId, reserver: Pid, authorized: bool)

  /** The executor of the task's current generation is alive and stands at one of these stages. */
  predicate At(c: System, t: TaskId, stages: set<Stage>) {
    && t in c.store.executions
    && c.store.executions[t].pid !in c.dead
    && c.store.executions[t].generation in c.stages
    && c.stages[c.store.executions[t].generation] in stages
  }

  function Moved(c: System, t: TaskId, store: Store, stage: Stage): System
    requires t in c.store.executions
  {
    c.(store := store, stages := c.stages[c.store.executions[t].generation := stage])
  }

  /** The state after a step, or the code with which it is refused (no change). */
  ghost function Next(c: System, step: Step): Result<System> {
    var s := c.store;
    match step
    case Tick(to) => if to >= c.now then Ok(c.(now := to)) else Err(INTERNAL)
    case Crash(pid) => Ok(c.(dead := c.dead + {pid}))
    case TaskChange(tasks) => Ok(c.(store := s.(tasks := tasks)))
    case ToolAcquire(id, t, holder, scope, ttl, readAt) =>
      if id in s.leases || !Stored(scope) then Err(INTERNAL)
      else
        var s1 :- LM.AcquireTx(s, id, t, holder, scope, ttl, readAt, c.now);
        Ok(c.(store := s1))
    case ToolRenew(id, holder, ttl) =>
      var s1 :- LM.Renew(s, id, holder, ttl, c.now);
      Ok(c.(store := s1))
    case ToolRelease(id, holder) =>
      var s1 :- LM.Release(s, id, holder);
      Ok(c.(store := s1))
    case Reap => Ok(c.(store := LM.ReapExpired(s, c.now)))
    case Reconcile(agent) => Ok(c.(store := ES.Reconcile(s, agent, c.dead)))
    case Enqueue(t, attempt, holder, maxConcurrency, g, pid) =>
      if g in c.stages then Err(INTERNAL)
      else
        var s1 :- ES.Queue(s, t, attempt, holder, maxConcurrency, g, pid);
        Ok(c.(store := s1, stages := c.stages[g := Preparing]))
    case Admit(t) =>
      if !At(c, t, {Preparing}) then Err(INTERNAL)
      else
        var r :- ES.TryAdmit(s, t, s.executions[t], c.dead);
        Ok(c.(store := r.0))
    case Launch(t, id, scope, ttl, readAt) =>
      if !At(c, t, {Preparing}) || s.executions[t].phase != RUNNING || s.executions[t].lease.Some? then Err(INTERNAL)
      else if id in s.leases || !Stored(scope) then Err(INTERNAL)
      else
        var s1 :- LaunchTx(s, t, id, scope, ttl, readAt, c.now);
        Ok(Moved(c, t, s1, Launched))
    case StopWaiting(t) =>
      if !At(c, t, {Preparing}) then Err(INTERNAL)
      else
        var s1 :- ES.Update(s, t, s.executions[t], STOP);
        Ok(Moved(c, t, s1, Preparing))
    case Abandon(t) =>
      if !At(c, t, {Preparing}) || s.executions[t].lease.Some? then Err(INTERNAL)
      else
        var s1 :- ES.Update(s, t, s.executions[t], STOP);
        Ok(Moved(c, t, s1, Finished))
    case PrepareRecovery(t, attempt, holder, maxConcurrency, g, pid, id, scope, ttl) =>
      if g in c.stages || id in s.leases || !Stored(scope) then Err(INTERNAL)
      else
        var s1 :- PrepareRecoveryTx(s, t, attempt, holder, maxConcurrency, g, pid, id, scope, ttl, c.now);
        Ok(c.(store := s1, stages := c.stages[g := Preparing]))
    case LaunchRecovery(t) =>
      if !At(c, t, {Preparing}) || s.executions[t].phase != RUNNING || s.executions[t].lease.None? then Err(INTERNAL)
      else if !ReservationLive(s, t, c.now) then Err(INTERNAL)
      else
        var s1 :- LaunchRecoveryTx(s, t);
        Ok(Moved(c, t, s1, Launched))
    case AbandonRecovery(t) =>
      if !At(c, t, {Preparing}) || s.executions[t].lease.None? then Err(INTERNAL)
      else
        var s1 :- AbandonRecoveryTx(s, t);
        Ok(Moved(c, t, s1, Finished))
    case ReportRunning(t) =>
      if !At(c, t, {Launched, Decided(true), Decided(false), Finished}) then Err(INTERNAL)
      else
        var _ :- ES.CallbackAllowed(s, t, s.executions[t], c.now);
        var s1 :- ES.Update(s, t, s.executions[t], ES.Patch(None, Some(false), None));
        Ok(c.(store := s1))
    case ReportUnconfirmed(t) =>
      if !At(c, t, {Launched, Decided(true), Decided(false), Finished})
        || s.executions[t].stopConfirmed then Err(INTERNAL)
      else
        var s1 :- ES.Update(s, t, s.executions[t], ES.Patch(None, Some(false), None));
        Ok(c.(store := s1))
    case ReportStopped(t) =>
      if !At(c, t, {Launched, Decided(true), Decided(false), Finished}) then Err(INTERNAL)
      else
        var s1 :- ReportStoppedTx(s, t);
        Ok(c.(store := s1))
    case Decide(t, evidence) =>
      if !At(c, t, {Launched}) || (s.executions[t].stopConfirmed && !evidence) then Err(INTERNAL)
      else
        var s1 :- DecideTx(s, t, evidence);
        Ok(Moved(c, t, s1, Decided(evidence)))
    case Commit(t) =>
      if !At(c, t, {Decided(true), Decided(false)}) || s.executions[t].lease.None? then Err(INTERNAL)
      else
        var s1 := CommitTx(s, t, c.stages[s.executions[t].generation].stopped);
        Ok(Moved(c, t, if s1.Ok? then s1.value else s, Finished))
    case Cancel(t) =>
      var s1 :- CancelTx(s, t);
      Ok(c.(store := s1))
    case TakeOver(t, reserver, authorized) =>
      // Only the process of the reservation is known to be dead, not that of the execution.
      if t !in s.executions || reserver !in c.dead then Err(INTERNAL)
      else
        var s1 :- TakeOverTx(s, t, authorized);
        Ok(c.(store := s1))
  }

  /** The lease a recovery reserved is still held and has not timed out. */
  predicate ReservationLive(s: Store, t: TaskId, now: int)
    requires t in s.executions && s.executions[t].lease.Some?
  {
    var id := s.executions[t].lease.value;
    id in s.leases && s.leases[id].state == HELD && s.leases[id].expiresAt > now
  }

  ghost predicate Initial(c: System) {
    c.store.leases == map[] && c.store.executions == map[] && c.stages == map[]
  }

  /** A run: it starts in an initial state, and every state follows from the previous one by a step. */
  ghost predicate Run(states: seq<System>, steps: seq<Step>) {
    && |states| == |steps| + 1
    && Initial(states[0])
    && forall i :: 0 <= i < |steps| ==> Next(states[i], steps[i]) == Ok(states[i + 1])
  }
}
