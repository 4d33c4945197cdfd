/**
 * What each transaction of the control plane leaves behind, and exactly when it is refused
 * (shared/control-plane/src/orchestrator.ts,
   shared/control-plane/src/execution-service.ts). Leases are described by who
 * may still use them.
 */
module ProtocolEffects {
  import opened Bridge
  import opened WriteScopes
  import opened ControlStore
  import opened Protocol
  import opened ProtocolRows
  import opened ProtocolInvariant
  import opened ProtocolTheorems
  import LM = LeaseManager
  import ES = ExecutionService

  // ---------------------------------------------------------------- the state a lease can be left in

  /** At no time does the lease stand in anybody's way or let anybody write. */
  ghost predicate Over(s: Store, id: LeaseId) {
    && id in s.leases && s.leases[id].state in {RELEASED, EXPIRED}
    && (forall now :: !LM.IsLive(s, id, now))
    && (forall holder, path, now :: LM.PathWritable(s, id, holder, path, now) != Ok(()))
  }

  /** The lease is live at every time, nobody can give it back or renew it, and no path it covers can be written. */
  ghost predicate Sealed(s: Store, id: LeaseId) {
    && id in s.leases && s.leases[id].state == LeaseState.QUARANTINED
    && (forall now :: LM.IsLive(s, id, now))
    && (forall holder :: LM.Release(s, id, holder).Err?)
    && (forall holder, ttl, now :: LM.Renew(s, id, holder, ttl, now).Err?)
    && ClosedToWrites(s, s.leases[id].scope)
  }

  lemma OverWhen(s: Store, id: LeaseId)
    requires id in s.leases && s.leases[id].state in {RELEASED, EXPIRED}
    ensures Over(s, id)
  {
    hide ScopeAllows;
  }

  lemma SealedWhen(s: Store, id: LeaseId)
    requires id in s.leases && s.leases[id].state == LeaseState.QUARANTINED
    ensures Sealed(s, id)
  {
    hide ClosedToWrites;
    QuarantineCloses(s, id);
  }

  /** Every lease but this one is the same row as before. */
  predicate OtherLeasesStay(s: Store, s': Store, id: LeaseId) {
    && s'.leases.Keys - {id} == s.leases.Keys - {id}
    && forall o :: o in s.leases && o != id ==> o in s'.leases && s'.leases[o] == s.leases[o]
  }

  /** A row names a lease that exists and is its agent's. */
  lemma NamedLease(s: Store, t: TaskId)
    requires Rows(s) && t in s.executions && s.executions[t].lease.Some?
    ensures var id := s.executions[t].lease.value;
      id in s.leases && s.leases[id].task == t && s.leases[id].holder == s.executions[t].agent
  {
  }

  // ---------------------------------------------------------------- commit

  /**
   * A commit without stop evidence seals the lease of the execution: it is refused exactly if that lease is over
   * already, and changes nothing else.
   */
  lemma UnconfirmedCommitSeals(s: Store, t: TaskId)
    requires Rows(s) && t in s.executions && s.executions[t].lease.Some?
    ensures var id := s.executions[t].lease.value;
      CommitTx(s, t, false).Ok? <==> s.leases[id].state in {HELD, LeaseState.QUARANTINED}
    ensures CommitTx(s, t, false).Ok? ==>
      var s', id := CommitTx(s, t, false).value, s.executions[t].lease.value;
      s'.executions == s.executions && s'.tasks == s.tasks && Sealed(s', id) && OtherLeasesStay(s, s', id)
  {
    hide Rows, Sealed;
    NamedLease(s, t);
    if CommitTx(s, t, false).Ok? { SealedWhen(CommitTx(s, t, false).value, s.executions[t].lease.value); }
  }

  /** A commit after a confirmed stop ends the execution and its lease, and changes nothing else. */
  lemma ConfirmedCommitEnds(s: Store, t: TaskId)
    requires Rows(s) && t in s.executions && s.executions[t].lease.Some?
    ensures var id := s.executions[t].lease.value; CommitTx(s, t, true).Ok? <==>
      s.leases[id].state != LeaseState.QUARANTINED
    ensures CommitTx(s, t, true).Ok? ==>
      var s', e := CommitTx(s, t, true).value, s.executions[t];
      && s'.executions == s.executions[t := e.(phase := STOPPED, stopConfirmed := true)] && s'.tasks == s.tasks
      && Over(s', e.lease.value) && OtherLeasesStay(s, s', e.lease.value)
  {
    hide Rows, Over;
    NamedLease(s, t);
    if CommitTx(s, t, true).Ok? { OverWhen(CommitTx(s, t, true).value, s.executions[t].lease.value); }
  }

  // ---------------------------------------------------------------- launches

  /** What stands in the way of a lease for this task and agent: a live lease that conflicts or fences the task. */
  predicate InTheWay(s: Store, o: LeaseId, t: TaskId, holder: AgentId, scope: seq<string>, now: int)
    requires o in s.leases
  {
    var l := s.leases[o];
    && LM.IsLive(s, o, now)
    && (Conflict(scope, l.scope) || (l.task == t && (l.state == LeaseState.QUARANTINED || Fenced(s, o))))
    && !(l.task == t && l.holder == holder && l.state == HELD && (t in s.executions ==> s.executions[t].stopConfirmed))
  }

  predicate WayIsClear(s: Store, t: TaskId, holder: AgentId, scope: seq<string>, now: int) {
    forall o :: o in s.leases ==> !InTheWay(s, o, t, holder, scope, now)
  }

  lemma ClearMeansNoConflicts(s: Store, t: TaskId, holder: AgentId, scope: seq<string>, now: int)
    ensures LM.FindConflicts(s, scope, holder, Some(t), now) == {} <==> WayIsClear(s, t, holder, scope, now)
  {
    hide Conflict;
    forall o | o in s.leases
      ensures InTheWay(s, o, t, holder, scope, now) <==> LM.Blocks(s, o, scope, holder, Some(t), now)
    {}
    if o :| o in s.leases && InTheWay(s, o, t, holder, scope, now) {
      assert o in LM.FindConflicts(s, scope, holder, Some(t), now);
    }
  }

  /**
   * A lease is granted exactly when the way is clear; it is the holder's until it times out, and no other lease
   * changes.
   */
  lemma AcquireExactly(s: Store, id: LeaseId, t: TaskId, holder: AgentId, scope: seq<string>, ttl: int, readAt: int,
      now: int)
    requires id !in s.leases
    ensures LM.AcquireTx(s, id, t, holder, scope, ttl, readAt, now).Ok? <==>
      ttl > 0 && WayIsClear(s, t, holder, scope, now)
    ensures LM.AcquireTx(s, id, t, holder, scope, ttl, readAt, now).Ok? ==>
      LM.AcquireTx(s, id, t, holder, scope, ttl, readAt, now).value
        == PutLease(s, id, Lease(t, holder, scope, HELD, readAt, readAt + ttl))
  {
    hide LM.FindConflicts, WayIsClear;
    ClearMeansNoConflicts(s, t, holder, scope, now);
  }

  /**
   * A launch is refused for a cancellation or for what is in the way; it names the new lease and gives up the evidence.
   */
  lemma LaunchExactly(s: Store, t: TaskId, id: LeaseId, scope: seq<string>, ttl: int, readAt: int, now: int)
    requires t in s.executions && id !in s.leases
    ensures LaunchTx(s, t, id, scope, ttl, readAt, now).Ok? <==>
      && !s.executions[t].cancelled && ttl > 0
      && WayIsClear(s, t, s.executions[t].agent, scope, readAt) && WayIsClear(s, t, s.executions[t].agent, scope, now)
    ensures LaunchTx(s, t, id, scope, ttl, readAt, now).Ok? ==>
      var s', e := LaunchTx(s, t, id, scope, ttl, readAt, now).value, s.executions[t];
      && s'.executions == s.executions[t := e.(stopConfirmed := false, lease := Some(id))]
      && id in s'.leases && s'.leases[id] == Lease(t, e.agent, scope, HELD, readAt, readAt + ttl)
      && OtherLeasesStay(s, s', id)
  {
    hide LM.FindConflicts, WayIsClear;
    ClearMeansNoConflicts(s, t, s.executions[t].agent, scope, readAt);
    ClearMeansNoConflicts(s, t, s.executions[t].agent, scope, now);
  }

  /** No live lease is of this task or conflicts with this scope. */
  predicate NothingLive(s: Store, t: TaskId, scope: seq<string>, now: int) {
    forall o :: o in s.leases && LM.IsLive(s, o, now) ==> s.leases[o].task != t && !Conflict(scope, s.leases[o].scope)
  }

  /** Queueing a generation changes no lease and nobody's liveness. */
  lemma QueueingKeepsLiveness(s: Store, t: TaskId, e: Execution, o: LeaseId, now: int)
    requires Rows(s) && e.stopConfirmed && e.lease.None? && o in s.leases
    requires t in s.executions ==> s.executions[t].phase == STOPPED
    ensures LM.IsLive(PutExecution(s, t, e), o, now) <==> LM.IsLive(s, o, now)
  {
    hide Stored;
  }

  lemma QueuedWayIsClear(s: Store, t: TaskId, e: Execution, holder: AgentId, scope: seq<string>, now: int)
    requires Rows(s) && e.stopConfirmed && e.lease.None? && NothingLive(s, t, scope, now)
    requires t in s.executions ==> s.executions[t].phase == STOPPED
    ensures WayIsClear(PutExecution(s, t, e), t, holder, scope, now)
  {
    hide Conflict, Rows, LM.IsLive;
    forall o | o in s.leases ensures !InTheWay(PutExecution(s, t, e), o, t, holder, scope, now) {
      QueueingKeepsLiveness(s, t, e, o, now);
    }
  }

  lemma RefusedBesideLive(s: Store, t: TaskId, scope: seq<string>, now: int)
    ensures RecoveryRefused(s, t, scope, now) <==> !NothingLive(s, t, scope, now)
  {
    hide Conflict;
    if RecoveryRefused(s, t, scope, now) {
      var o :| o in s.leases && LM.IsLive(s, o, now) && (s.leases[o].task == t || Conflict(scope, s.leases[o].scope));
    }
    if !NothingLive(s, t, scope, now) {
      var o :| o in s.leases && LM.IsLive(s, o, now) && !(s.leases[o].task != t && !Conflict(scope, s.leases[o].scope));
    }
  }

  /** Checking twice at one moment is checking once. */
  lemma SameMoment(s: Store, id: LeaseId, t: TaskId, holder: AgentId, scope: seq<string>, ttl: int, now: int)
    ensures LM.Acquire(s, s, id, t, holder, scope, ttl, now, now) ==
      LM.AcquireTx(s, id, t, holder, scope, ttl, now, now)
  {
    hide LM.FindConflicts;
  }

  lemma QueueExactly(s: Store, t: TaskId, attempt: nat, agent: AgentId, limit: int, g: Generation, pid: Pid)
    ensures ES.Queue(s, t, attempt, agent, limit, g, pid).Ok? <==>
      (t in s.executions ==> s.executions[t].phase == STOPPED) && |ES.QueuedOf(s, agent)| < 64
    ensures ES.Queue(s, t, attempt, agent, limit, g, pid).Ok? ==>
      ES.Queue(s, t, attempt, agent, limit, g, pid).value == PutExecution(s, t,
        Execution(attempt, agent, g, QUEUED, pid, limit, ES.MaxTicket(s.executions) + 1, true, None, false))
  {
  }

  /**
   * A recovery is prepared exactly when the task's execution has stopped, the queue has room,
     and no live lease is of the
   * task or conflicts; it waits with its evidence and the next ticket, and names a lease of its own.
   */
  lemma PrepareRecoveryExactly(s: Store, t: TaskId, attempt: nat, agent: AgentId, limit: int, g: Generation, pid: Pid,
      id: LeaseId, scope: seq<string>, ttl: int, now: int)
    requires Rows(s) && id !in s.leases
    ensures PrepareRecoveryTx(s, t, attempt, agent, limit, g, pid, id, scope, ttl, now).Ok? <==>
      && (t in s.executions ==> s.executions[t].phase == STOPPED) && |ES.QueuedOf(s, agent)| < 64
      && ttl > 0 && NothingLive(s, t, scope, now)
    ensures PrepareRecoveryTx(s, t, attempt, agent, limit, g, pid, id, scope, ttl, now).Ok? ==>
      var s' := PrepareRecoveryTx(s, t, attempt, agent, limit, g, pid, id, scope, ttl, now).value;
      && s'.leases == s.leases[id := Lease(t, agent, scope, HELD, now, now + ttl)]
      && s'.executions == s.executions[t := Execution(attempt, agent, g, QUEUED, pid, limit,
           ES.MaxTicket(s.executions) + 1, true, Some(id), false)]
  {
    hide Conflict, Rows, LM.IsLive, ES.Queue, ES.QueuedOf, LM.AcquireTx, WayIsClear;
    QueueExactly(s, t, attempt, agent, limit, g, pid);
    RefusedBesideLive(s, t, scope, now);
    if ES.Queue(s, t, attempt, agent, limit, g, pid).Ok? {
      var s1 := ES.Queue(s, t, attempt, agent, limit, g, pid).value;
      var e := s1.executions[t];
      if NothingLive(s, t, scope, now) { QueuedWayIsClear(s, t, e, agent, scope, now); }
      AcquireExactly(s1, id, t, agent, scope, ttl, now, now);
      SameMoment(s1, id, t, agent, scope, ttl, now);
      if LM.AcquireTx(s1, id, t, agent, scope, ttl, now, now).Ok? {
        var s2 := LM.AcquireTx(s1, id, t, agent, scope, ttl, now, now).value;
        assert s2.leases == s.leases[id := Lease(t, agent, scope, HELD, now, now + ttl)];
        assert s.executions[t := e][t := e.(lease := Some(id))] == s.executions[t := e.(lease := Some(id))];
      }
    }
  }

  /** A recovery launch is refused for a cancellation alone, and changes the evidence alone. */
  lemma LaunchRecoveryExactly(s: Store, t: TaskId)
    requires t in s.executions
    ensures LaunchRecoveryTx(s, t).Ok? <==> !s.executions[t].cancelled
    ensures LaunchRecoveryTx(s, t).Ok? ==>
      LaunchRecoveryTx(s, t).value == PutExecution(s, t, s.executions[t].(stopConfirmed := false))
  {
  }

  /** Before launch the execution and the lease reserved for it end together, unless the lease has been quarantined. */
  lemma AbandonRecoveryEnds(s: Store, t: TaskId)
    requires Rows(s) && t in s.executions && s.executions[t].lease.Some?
    ensures AbandonRecoveryTx(s, t).Ok? <==>
      s.executions[t].stopConfirmed && s.leases[s.executions[t].lease.value].state != LeaseState.QUARANTINED
    ensures AbandonRecoveryTx(s, t).Ok? ==>
      var s', e := AbandonRecoveryTx(s, t).value, s.executions[t];
      && s'.executions == s.executions[t := e.(phase := STOPPED, stopConfirmed := true)]
      && Over(s', e.lease.value) && OtherLeasesStay(s, s', e.lease.value)
  {
    hide Rows, Over;
    NamedLease(s, t);
    if AbandonRecoveryTx(s, t).Ok? { OverWhen(AbandonRecoveryTx(s, t).value, s.executions[t].lease.value); }
  }

  // ---------------------------------------------------------------- reports, decisions, cancellation, takeover

  /** A stop report is never refused. It confirms the stop, and ends a quarantined execution together with its lease. */
  lemma StopReportEnds(s: Store, t: TaskId)
    requires Rows(s) && t in s.executions
    ensures ReportStoppedTx(s, t).Ok?
    ensures var s', e := ReportStoppedTx(s, t).value, s.executions[t];
      if e.stopConfirmed then s' == s
      else if e.phase != Phase.QUARANTINED then s' == PutExecution(s, t, e.(stopConfirmed := true))
      else
        && s'.executions == s.executions[t := e.(phase := STOPPED, stopConfirmed := true)]
        && e.lease.Some? && Over(s', e.lease.value) && OtherLeasesStay(s, s', e.lease.value)
  {
    hide Over, ES.DistinctTickets, ES.DistinctGenerations, ScopesStored;
    var e := s.executions[t];
    if !e.stopConfirmed && e.phase == Phase.QUARANTINED {
      NamedLease(s, t);
      var id := e.lease.value;
      var s1 := PutExecution(s, t, e.(phase := STOPPED, stopConfirmed := true));
      assert s1.leases[id].state in {HELD, LeaseState.QUARANTINED};
      OverWhen(LM.ConfirmStopped(s1, id, e.agent).value, id);
    }
  }

  /** Before launch, or after the stop, a cancellation ends the execution and a held lease; in between it only asks. */
  lemma CancelExactly(s: Store, t: TaskId)
    requires Rows(s)
    ensures CancelTx(s, t).Ok?
    ensures t !in s.executions ==> CancelTx(s, t).value == s
    ensures t in s.executions ==>
      var s', e := CancelTx(s, t).value, s.executions[t];
      if e.phase in {RUNNING, Phase.QUARANTINED} then s' == PutExecution(s, t, e.(cancelled := true))
      else
        && s'.executions == s.executions[t := StoppedRow(e)]
        && if e.lease.Some? && s.leases[e.lease.value].state == HELD
           then Over(s', e.lease.value) && OtherLeasesStay(s, s', e.lease.value)
           else s'.leases == s.leases
  {
    hide Over, ES.DistinctTickets, ES.DistinctGenerations, ScopesStored;
    if t in s.executions {
      var e := s.executions[t];
      if e.phase in {RUNNING, Phase.QUARANTINED} {
        assert e.cancelled ==> s.executions[t := e.(cancelled := true)] == s.executions;
      } else {
        assert e.phase.QUEUED? || e.phase.STOPPED?;
        CancelPrelaunchEnds(s, t);
      }
    }
  }

  lemma CancelPrelaunchEnds(s: Store, t: TaskId)
    requires Rows(s) && t in s.executions && s.executions[t].phase in {QUEUED, STOPPED}
    ensures CancelTx(s, t).Ok?
    ensures var s', e := CancelTx(s, t).value, s.executions[t];
      && s'.executions == s.executions[t := StoppedRow(e)]
      && if e.lease.Some? && s.leases[e.lease.value].state == HELD
         then Over(s', e.lease.value) && OtherLeasesStay(s, s', e.lease.value)
         else s'.leases == s.leases
  {
    hide Over, ES.DistinctTickets, ES.DistinctGenerations, ScopesStored, FenceKept;
    var e, s1 := s.executions[t], ES.RequestCancel(s, t);
    assert Stopped(s1.executions[t]) == StoppedRow(e);
    assert s1.executions[t := StoppedRow(e)] == s.executions[t := StoppedRow(e)];
    if e.lease.Some? {
      NamedLease(s, t);
      if s.leases[e.lease.value].state == HELD { OverWhen(CancelTx(s, t).value, e.lease.value); }
    }
  }

  /**
   * A takeover stops what was not launched, seals what was and is not known to have stopped, and leaves the rest alone.
   */
  lemma TakeOverExactly(s: Store, t: TaskId, authorized: bool)
    requires Rows(s) && t in s.executions
    ensures TakeOverTx(s, t, authorized).Ok?
    ensures var s', e := TakeOverTx(s, t, authorized).value, s.executions[t];
      if !authorized && (e.phase == QUEUED || (e.phase == RUNNING && e.stopConfirmed))
      then s' == PutExecution(s, t, e.(phase := STOPPED))
      else if authorized && !e.stopConfirmed then
        && s'.executions == s.executions[t := e.(phase := Phase.QUARANTINED)]
        && e.lease.Some? && Sealed(s', e.lease.value) && OtherLeasesStay(s, s', e.lease.value)
      else s' == s
  {
    hide Sealed, ES.DistinctTickets, ES.DistinctGenerations, ScopesStored;
    var e := s.executions[t];
    if authorized && !e.stopConfirmed {
      NamedLease(s, t);
      SealedWhen(TakeOverTx(s, t, true).value, e.lease.value);
    }
  }

  // ---------------------------------------------------------------- orphans

  /**
   * Reconciliation leaves no execution of a dead process waiting or running: one that had not been launched,
     or whose stop
   * is confirmed, has stopped and its lease is over; another is quarantined and its lease sealed.
   */
  lemma ReconcileLeavesNoOrphan(s: Store, agent: Option<AgentId>, dead: set<Pid>, t: TaskId)
    requires Rows(s) && t in s.executions
    requires var e := s.executions[t]; e.pid != 0 && e.pid in dead && (agent.Some? ==> e.agent == agent.value)
    requires s.executions[t].phase in {QUEUED, RUNNING}
    ensures var s', e := ES.Reconcile(s, agent, dead), s.executions[t];
      && t in s'.executions
      && s'.executions[t] == (if e.stopConfirmed then e.(phase := STOPPED) else e.(phase := Phase.QUARANTINED))
      && (e.lease.Some? && s.leases[e.lease.value].state == HELD ==>
            if e.stopConfirmed then Over(s', e.lease.value) else Sealed(s', e.lease.value))
  {
    hide Over, Sealed, ES.DistinctTickets, ES.DistinctGenerations, ScopesStored;
    var s', e := ES.Reconcile(s, agent, dead), s.executions[t];
    if e.lease.Some? && s.leases[e.lease.value].state == HELD {
      NamedLease(s, t);
      if e.stopConfirmed { OverWhen(s', e.lease.value); } else { SealedWhen(s', e.lease.value); }
    }
  }

  /**
   * It leaves everything else as it was: the rows of the living, and every lease that no orphan names or that is not
   * held.
   */
  lemma ReconcileSparesTheLiving(s: Store, agent: Option<AgentId>, dead: set<Pid>)
    ensures var s' := ES.Reconcile(s, agent, dead);
      && s'.executions.Keys == s.executions.Keys && s'.leases.Keys == s.leases.Keys && s'.tasks == s.tasks
      && (forall t :: t in s.executions && (s.executions[t].pid == 0 || s.executions[t].pid !in dead
            || s.executions[t].phase in {STOPPED, Phase.QUARANTINED}
              || (agent.Some? && s.executions[t].agent != agent.value))
            ==> s'.executions[t] == s.executions[t])
      && (forall id :: id in s.leases && (s.leases[id].state != HELD
            || (forall t :: t in s.executions && s.executions[t].lease == Some(id) ==>
              s'.executions[t] == s.executions[t]))
            ==> s'.leases[id] == s.leases[id])
  {
    var s' := ES.Reconcile(s, agent, dead);
    forall id | id in s.leases && (s.leases[id].state != HELD
      || (forall t :: t in s.executions && s.executions[t].lease == Some(id) ==> s'.executions[t] == s.executions[t]))
      ensures s'.leases[id] == s.leases[id]
    {
      var t := s.leases[id].task;
      if t in s.executions && ES.Orphaned(s.executions[t], agent, dead) {
        assert s'.executions[t] != s.executions[t];
      }
    }
  }

  /** A reap ends every held lease that has timed out, and seals it instead if it fences; every other row stays. */
  lemma ReapExactly(s: Store, now: int, id: LeaseId)
    requires id in s.leases
    ensures var s' := LM.ReapExpired(s, now);
      && s'.executions == s.executions && s'.tasks == s.tasks && s'.leases.Keys == s.leases.Keys
      && if s.leases[id].state == HELD && s.leases[id].expiresAt <= now
         then if Fenced(s, id) then Sealed(s', id) else Over(s', id)
         else s'.leases[id] == s.leases[id]
  {
    hide Sealed, Over;
    var s' := LM.ReapExpired(s, now);
    if s.leases[id].state == HELD && s.leases[id].expiresAt <= now {
      if Fenced(s, id) { SealedWhen(s', id); } else { OverWhen(s', id); }
    }
  }

  // ---------------------------------------------------------------- callbacks

  /**
   * A callback counts exactly from the current, running, uncancelled execution of the task's attempt, inside its own
   * lease.
   */
  lemma CallbackExactly(s: Store, t: TaskId, record: Execution, now: int)
    ensures ES.CallbackAllowed(s, t, record, now).Ok? <==>
      && t in s.executions && s.executions[t].generation == record.generation
        && s.executions[t].attempt == record.attempt
      && s.executions[t].phase == RUNNING && !s.executions[t].cancelled && RunsInside(s, s.executions[t], now)
      && t in s.tasks && s.tasks[t] == TaskView(record.attempt, Some(record.agent), false)
  {
  }
}
