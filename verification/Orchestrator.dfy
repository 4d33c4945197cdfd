/**
 * The transactions of the orchestrator (shared/control-plane/src/orchestrator.ts), carried out on the database
 * by the lease and execution services. A code that any service throws rolls the whole transaction back.
 */
module Orchestrator {
  import opened Bridge
  import opened WriteScopes
  import opened ControlStore
  import opened Protocol
  import LM = LeaseManager
  import ES = ExecutionService

  class Transactions {
    const db: Database
    const leases: LM.Leases
    const executions: ES.Executions

    ghost predicate Valid() {
      leases.store == db && executions.store == db
    }

    constructor (db: Database)
      ensures Valid() && this.db == db
    {
      this.db := db;
      leases := new LM.Leases(db);
      executions := new ES.Executions(db);
    }

    method Rollback(before: Store)
      modifies db
      ensures db.View() == before
    {
      db.leases, db.executions, db.tasks := before.leases, before.executions, before.tasks;
    }

    /** The launch transaction of `runAttempt`. */
    method Launch(t: TaskId, id: LeaseId, scope: seq<string>, ttl: int, readAt: int, now: int) returns (r: Result<()>)
      requires Valid() && t in db.executions && id !in db.leases
      modifies db
      ensures match LaunchTx(old(db.View()), t, id, scope, ttl, readAt, now)
        case Ok(s) => r == Ok(()) && db.View() == s
        case Err(c) => r == Err(c) && db.View() == old(db.View())
    {
      hide LM.FindConflicts;
      var before, e := db.View(), db.executions[t];
      if e.cancelled { return Err(TASK_CANCELLED); }
      var acquired := leases.AcquireLease(id, t, e.agent, scope, ttl, readAt, now);
      if acquired.Err? { return acquired; }
      var launched := executions.UpdateExecution(t, e, ES.Patch(None, Some(false), Some(id)));
      if launched.Err? { Rollback(before); return Err(launched.code); }
      return Ok(());
    }

    /** `prepareRecovery`: the live leases are listed before anything is written. */
    method PrepareRecovery(t: TaskId, attempt: nat, agent: AgentId, maxConcurrency: int, g: Generation, pid: Pid,
        id: LeaseId, scope: seq<string>, ttl: int, now: int) returns (r: Result<()>)
      requires Valid() && id !in db.leases
      modifies db
      ensures match PrepareRecoveryTx(old(db.View()), t, attempt, agent, maxConcurrency, g, pid, id, scope, ttl, now)
        case Ok(s) => r == Ok(()) && db.View() == s
        case Err(c) => r == Err(c) && db.View() == old(db.View())
    {
      hide LM.FindConflicts, ES.QueuedOf, RecoveryRefused;
      var before := db.View();
      if RecoveryRefused(before, t, scope, now) { return Err(SCOPE_CONFLICT); }
      var queued := executions.QueueExecution(t, attempt, agent, maxConcurrency, g, pid);
      if queued.Err? { return Err(queued.code); }
      var acquired := leases.AcquireLease(id, t, agent, scope, ttl, now, now);
      if acquired.Err? { Rollback(before); return acquired; }
      var bound := executions.UpdateExecution(t, queued.value, ES.Patch(None, None, Some(id)));
      if bound.Err? { Rollback(before); return Err(bound.code); }
      return Ok(());
    }

    /** The launch transaction of `executeRecovery`. */
    method LaunchRecovery(t: TaskId) returns (r: Result<()>)
      requires Valid() && t in db.executions
      modifies db
      ensures match LaunchRecoveryTx(old(db.View()), t)
        case Ok(s) => r == Ok(()) && db.View() == s
        case Err(c) => r == Err(c) && db.View() == old(db.View())
    {
      var e := db.executions[t];
      if e.cancelled { return Err(TASK_CANCELLED); }
      var launched := executions.UpdateExecution(t, e, ES.Patch(None, Some(false), None));
      if launched.Err? { return Err(launched.code); }
      return Ok(());
    }

    /**
     * Stop the execution of `t` and release the lease it names: commit after a confirmed stop, and abandoned
     * recoveries.
     */
    method StopAndRelease(t: TaskId) returns (r: Result<()>)
      requires Valid() && t in db.executions && db.executions[t].lease.Some?
      modifies db
      ensures match CommitTx(old(db.View()), t, true)
        case Ok(s) => r == Ok(()) && db.View() == s
        case Err(c) => r == Err(c) && db.View() == old(db.View())
    {
      var before, e := db.View(), db.executions[t];
      var stopped := executions.UpdateExecution(t, e, STOP);
      if stopped.Err? { return Err(stopped.code); }
      r := leases.ReleaseLease(e.lease.value, e.agent);
      if r.Err? { Rollback(before); }
    }

    /** The failure branch of `executeRecovery` before launch. */
    method AbandonRecovery(t: TaskId) returns (r: Result<()>)
      requires Valid() && t in db.executions && db.executions[t].lease.Some?
      modifies db
      ensures match AbandonRecoveryTx(old(db.View()), t)
        case Ok(s) => r == Ok(()) && db.View() == s
        case Err(c) => r == Err(c) && db.View() == old(db.View())
    {
      if !db.executions[t].stopConfirmed { return Err(RUNTIME_STOP_UNCONFIRMED); }
      r := StopAndRelease(t);
    }

    /** `reportRuntimeState("stopped")`. */
    method ReportStopped(t: TaskId) returns (r: Result<()>)
      requires Valid() && t in db.executions
      modifies db
      ensures match ReportStoppedTx(old(db.View()), t)
        case Ok(s) => r == Ok(()) && db.View() == s
        case Err(c) => r == Err(c) && db.View() == old(db.View())
    {
      var before, e := db.View(), db.executions[t];
      if e.stopConfirmed { return Ok(()); }
      var quarantined := e.phase == Phase.QUARANTINED;
      var stopped := executions.UpdateExecution(t, e,
        ES.Patch(if quarantined then Some(STOPPED) else None, Some(true), None));
      if stopped.Err? { return Err(stopped.code); }
      if quarantined && e.lease.Some? {
        r := leases.Confirm(e.lease.value, e.agent);
        if r.Err? { Rollback(before); }
        return;
      }
      return Ok(());
    }

    /** The lease and execution part of `commit` in `performInvocation`. */
    method Commit(t: TaskId, stopped: bool) returns (r: Result<()>)
      requires Valid() && t in db.executions && db.executions[t].lease.Some?
      modifies db
      ensures match CommitTx(old(db.View()), t, stopped)
        case Ok(s) => r == Ok(()) && db.View() == s
        case Err(c) => r == Err(c) && db.View() == old(db.View())
    {
      if stopped {
        r := StopAndRelease(t);
      } else {
        r := leases.QuarantineLease(db.executions[t].lease.value, db.executions[t].agent);
      }
    }

    /** The transaction of `cancelTask`. */
    method CancelTask(t: TaskId) returns (r: Result<()>)
      requires Valid()
      modifies db
      ensures match CancelTx(old(db.View()), t)
        case Ok(s) => r == Ok(()) && db.View() == s
        case Err(c) => r == Err(c) && db.View() == old(db.View())
    {
      var before := db.View();
      executions.Cancel(t);
      if t !in db.executions { return Ok(()); }
      var e := db.executions[t];
      if e.phase != QUEUED && e.phase != STOPPED { return Ok(()); }
      var stopped := executions.UpdateExecution(t, e, STOP);
      if stopped.Err? { Rollback(before); return Err(stopped.code); }
      if e.lease.Some? && e.lease.value in db.leases && db.leases[e.lease.value].state == HELD {
        r := leases.ReleaseLease(e.lease.value, e.agent);
        if r.Err? { Rollback(before); }
        return;
      }
      return Ok(());
    }

    /** What `reserveTask` does to the execution of a dead executor. */
    method TakeOver(t: TaskId, authorized: bool) returns (r: Result<()>)
      requires Valid() && t in db.executions
      modifies db
      ensures match TakeOverTx(old(db.View()), t, authorized)
        case Ok(s) => r == Ok(()) && db.View() == s
        case Err(c) => r == Err(c) && db.View() == old(db.View())
    {
      var before, e := db.View(), db.executions[t];
      if !authorized {
        if e.phase == QUEUED || (e.phase == RUNNING && e.stopConfirmed) {
          var stopped := executions.UpdateExecution(t, e, ES.Patch(Some(STOPPED), None, None));
          if stopped.Err? { return Err(stopped.code); }
        }
        return Ok(());
      }
      if e.stopConfirmed { return Ok(()); }
      var quarantined := executions.UpdateExecution(t, e, ES.Patch(Some(Phase.QUARANTINED), None, None));
      if quarantined.Err? { return Err(quarantined.code); }
      if e.lease.Some? {
        r := leases.QuarantineLease(e.lease.value, e.agent);
        if r.Err? { Rollback(before); }
        return;
      }
      return Ok(());
    }
  }
}
