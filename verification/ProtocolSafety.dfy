/** Safety of the control plane over whole runs: every step keeps the invariant, and which steps take no slot. */
module ProtocolSafety {
  import opened Bridge
  import opened WriteScopes
  import opened ControlStore
  import opened Protocol
  import opened ProtocolRows
  import opened ProtocolInvariant
  import LM = LeaseManager
  import ES = ExecutionService

  // ---------------------------------------------------------------- stages

  lemma StagesStay(c: System, c': System)
    requires Staged(c) && c'.store.executions == c.store.executions && c'.stages == c.stages
    requires NoNewHeld(c.store, c'.store) && c.dead <= c'.dead
    ensures Staged(c')
  {
  }

  /** Only the row and the stage of one generation change. */
  lemma StageMoves(c: System, c': System, t: TaskId)
    requires Staged(c) && ES.DistinctGenerations(c.store) && NoNewHeld(c.store, c'.store) && c.dead == c'.dead
    requires t in c.store.executions && OtherRowsStay(c.store, c'.store, t)
    requires var e, e' := c.store.executions[t], c'.store.executions[t];
      && e'.generation == e.generation && e'.pid == e.pid
      && (c'.stages == c.stages
          || (e.generation in c'.stages && c'.stages == c.stages[e.generation := c'.stages[e.generation]]))
      && (e.generation in c'.stages && e'.pid !in c'.dead ==> Agrees(c'.store, e', c'.stages[e.generation]))
    ensures Staged(c')
  {
  }

  /** A new generation starts in the stage Preparing. */
  lemma StageStarts(c: System, c': System, t: TaskId)
    requires Staged(c) && NoNewHeld(c.store, c'.store) && c.dead == c'.dead
    requires t in c'.store.executions && c'.store.executions == c.store.executions[t := c'.store.executions[t]]
    requires c'.store.executions[t].stopConfirmed && c'.store.executions[t].generation !in c.stages
    requires c'.stages == c.stages[c'.store.executions[t].generation := Preparing]
    ensures Staged(c')
  {
  }

  lemma Settled(c: System, c': System)
    requires Inv(c) && Rows(c'.store) && NoNewLive(c.store, c.now, c'.store, c'.now) && Staged(c')
    ensures Inv(c')
  {
    ExclusiveShrinks(c.store, c.now, c'.store, c'.now);
  }

  /** A step that writes one row and acquires nothing keeps the invariant if the row agrees with its stage. */
  lemma RowSettled(c: System, step: Step, c': System)
    requires Inv(c) && ChangesRow(step) && step.t in c.store.executions && OneRow(c, step, c')
    requires Keeps(c.store, c'.store, c.now)
    requires var e' := c'.store.executions[step.t];
      e'.generation in c'.stages && e'.pid !in c'.dead ==> Agrees(c'.store, e', c'.stages[e'.generation])
    ensures Inv(c') && NoNewHeld(c.store, c'.store)
  {
    hide NoNewLive, NoNewHeld, Exclusive, Agrees, Staged, RowBecomes;
    hide FenceKept, ScopesStored, ES.NamesOwn, ES.DistinctTickets, ES.DistinctGenerations;
    RowKeepsIdentity(c, step, c.store.executions[step.t], c'.store.executions[step.t]);
    StageMoves(c, c', step.t);
    Settled(c, c');
  }

  // ---------------------------------------------------------------- one lemma per kind of step

  lemma SweepStep(c: System, step: Step, c': System)
    requires Inv(c) && Next(c, step) == Ok(c')
    requires step.Tick? || step.Crash? || step.TaskChange? || step.Reap?
    ensures Inv(c') && NoNewSlot(c.store, c'.store) && NoNewHeld(c.store, c'.store)
  {
    hide Conflict, Stored;
    if step.Reap? { ReapKeepsRows(c.store, c.now); }
    StagesStay(c, c');
    Settled(c, c');
  }

  lemma ReconcileStaged(c: System, agent: Option<AgentId>)
    requires Inv(c)
    ensures var s' := ES.Reconcile(c.store, agent, c.dead); Staged(c.(store := s')) && NoNewHeld(c.store, s')
  {
    hide Conflict, Stored, Rows, Exclusive;
  }

  lemma ReconcileStep(c: System, agent: Option<AgentId>)
    requires Inv(c)
    ensures var s' := ES.Reconcile(c.store, agent, c.dead);
      Inv(c.(store := s')) && NoNewSlot(c.store, s') && NoNewHeld(c.store, s')
  {
    hide ES.Reconcile;
    ReconcileKeepsRows(c.store, agent, c.dead, c.now);
    ReconcileStaged(c, agent);
    Settled(c, c.(store := ES.Reconcile(c.store, agent, c.dead)));
  }

  lemma ToolStep(c: System, step: Step, c': System)
    requires Inv(c) && Next(c, step) == Ok(c')
    requires step.ToolAcquire? || step.ToolRenew? || step.ToolRelease?
    ensures Inv(c') && NoNewSlot(c.store, c'.store) && NoNewHeld(c.store, c'.store)
  {
    hide Conflict, Stored, LM.AcquireTx, LM.Renew, LM.Release, Rows, Exclusive, NoNewLive, NoNewSlot, Staged;
    StepKeepsRows(c, step, c');
    match step {
      case ToolAcquire(id, t, holder, scope, ttl, readAt) =>
        AcquireKeeps(c.store, id, t, holder, scope, ttl, readAt, c.now);
        AcquireHoldsOne(c.store, id, t, holder, scope, ttl, readAt, c.now);
        StagesStay(c, c');
      case ToolRenew(id, holder, ttl) =>
        Renewed(c.store, id, holder, ttl, c.now);
        StagesStay(c, c');
        Settled(c, c');
      case ToolRelease(id, holder) =>
        Released(c.store, id, holder, c.now);
        StagesStay(c, c');
        Settled(c, c');
    }
  }

  lemma AcquireHoldsOne(s: Store, id: LeaseId, t: TaskId, holder: AgentId, scope: seq<string>, ttl: int, readAt: int,
      now: int)
    requires id !in s.leases && LM.AcquireTx(s, id, t, holder, scope, ttl, readAt, now).Ok?
    ensures NoNewHeld(s, LM.AcquireTx(s, id, t, holder, scope, ttl, readAt, now).value)
  {
    hide LM.FindConflicts;
  }

  lemma EnqueueStep(c: System, t: TaskId, attempt: nat, holder: AgentId, maxConcurrency: int, g: Generation, pid: Pid)
    requires Inv(c) && g !in c.stages && ES.Queue(c.store, t, attempt, holder, maxConcurrency, g, pid).Ok?
    ensures var s' := ES.Queue(c.store, t, attempt, holder, maxConcurrency, g, pid).value;
      Inv(c.(store := s', stages := c.stages[g := Preparing])) && NoNewSlot(c.store, s') && NoNewHeld(c.store, s')
  {
    hide Conflict, Stored, ES.QueuedOf;
    var s' := ES.Queue(c.store, t, attempt, holder, maxConcurrency, g, pid).value;
    var c' := c.(store := s', stages := c.stages[g := Preparing]);
    QueueKeeps(c.store, t, attempt, holder, maxConcurrency, g, pid, c.now);
    StageStarts(c, c', t);
    Settled(c, c');
  }

  lemma PrepareRecoveryStep(c: System, t: TaskId, attempt: nat, holder: AgentId, maxConcurrency: int, g: Generation,
      pid: Pid,
    id: LeaseId, scope: seq<string>, ttl: int, c': System)
    requires Inv(c) && Next(c, PrepareRecovery(t, attempt, holder, maxConcurrency, g, pid, id, scope, ttl)) == Ok(c')
    ensures Inv(c') && NoNewSlot(c.store, c'.store) && NoNewHeld(c.store, c'.store)
  {
    hide Conflict, Stored, ES.Queue, LM.AcquireTx, RecoveryRefused, Rows, Exclusive, Staged, NoNewSlot;
    var s1 := ES.Queue(c.store, t, attempt, holder, maxConcurrency, g, pid).value;
    EnqueueStep(c, t, attempt, holder, maxConcurrency, g, pid);
    QueuedForRecovery(c.store, t, attempt, holder, maxConcurrency, g, pid);
    var c1 := c.(store := s1, stages := c.stages[g := Preparing]);
    var c2 := c1.(store := LM.AcquireTx(s1, id, t, holder, scope, ttl, c.now, c.now).value);
    ReservedStep(c1, t, holder, id, scope, ttl, c2);
    assert c'.store == PutExecution(c2.store, t, c2.store.executions[t].(lease := Some(id)));
    assert c' == c2.(store := c'.store);
    NoSlotTwice(c.store, s1, c'.store);
  }

  lemma QueuedForRecovery(s: Store, t: TaskId, attempt: nat, agent: AgentId, maxConcurrency: int, g: Generation,
      pid: Pid)
    requires ES.Queue(s, t, attempt, agent, maxConcurrency, g, pid).Ok?
    ensures var s' := ES.Queue(s, t, attempt, agent, maxConcurrency, g, pid).value;
      && s'.leases == s.leases && t in s'.executions && s'.executions[t].agent == agent
        && s'.executions[t].generation == g
      && s'.executions[t].attempt == attempt && s'.executions[t].stopConfirmed && s'.executions[t].lease.None?
  {
    hide ES.QueuedOf;
  }

  lemma NoSlotTwice(s: Store, s1: Store, s2: Store)
    requires NoNewSlot(s, s1) && NoNewSlot(s1, s2)
    ensures NoNewSlot(s, s2)
  {
  }

  lemma NoHoldTwice(s: Store, s1: Store, s2: Store)
    requires NoNewHeld(s, s1) && NoNewHeld(s1, s2)
    ensures NoNewHeld(s, s2)
  {
  }

  lemma SameLeases(s: Store, s': Store)
    requires s'.leases == s.leases
    ensures NoNewHeld(s, s')
  {
  }

  /** The queued generation gets a lease of its own. */
  lemma ReservedStep(c: System, t: TaskId, holder: AgentId, id: LeaseId, scope: seq<string>, ttl: int, c2: System)
    requires Inv(c) && id !in c.store.leases && Stored(scope) && t in c.store.executions
    requires var e := c.store.executions[t];
      e.stopConfirmed && e.lease.None? && e.agent == holder && e.generation in c.stages
        && c.stages[e.generation] == Preparing
    requires LM.AcquireTx(c.store, id, t, holder, scope, ttl, c.now, c.now).Ok?
    requires c2 == c.(store := LM.AcquireTx(c.store, id, t, holder, scope, ttl, c.now, c.now).value)
    ensures c2.store.executions == c.store.executions
    ensures var s' := PutExecution(c2.store, t, c2.store.executions[t].(lease := Some(id)));
      Inv(c2.(store := s')) && NoNewSlot(c.store, s') && NoNewHeld(c.store, s')
  {
    hide Conflict, Stored, LM.FindConflicts, Exclusive, FenceKept, ScopesStored, ES.NamesOwn, ES.DistinctTickets,
      NoNewLive;
    var s' := PutExecution(c2.store, t, c2.store.executions[t].(lease := Some(id)));
    var c' := c2.(store := s');
    AcquireKeeps(c.store, id, t, holder, scope, ttl, c.now, c.now);
    AcquireHoldsOne(c.store, id, t, holder, scope, ttl, c.now, c.now);
    hide NoNewHeld;
    StagesStay(c, c2);
    ReservedLease(c2.store, t, id, c.now);
    SameLeases(c2.store, s');
    hide LM.AcquireTx, ES.DistinctGenerations, Staged;
    assert OtherRowsStay(c2.store, s', t);
    StageMoves(c2, c', t);
    Settled(c2, c');
    hide Rows;
    NoSlotTwice(c.store, c2.store, s');
    NoHoldTwice(c.store, c2.store, s');
  }

  lemma AdmitStep(c: System, t: TaskId, c': System)
    requires Inv(c) && Next(c, Admit(t)) == Ok(c')
    ensures Inv(c') && (BoundKept(c.store) ==> BoundKept(c'.store)) && NoNewHeld(c.store, c'.store)
  {
    StepAdmits(c, t, c');
    var agent, e := c.store.executions[t].agent, c.store.executions[t];
    var r := ES.Reconcile(c.store, Some(agent), c.dead);
    ReconcileStep(c, Some(agent));
    ReconcileKeepsLiving(c.store, Some(agent), c.dead, t);
    hide Next, BoundKept, ES.Reconcile, ES.SlotFree, NoNewSlot, NoNewHeld, Exclusive, Staged, Rows;
    if BoundKept(c.store) { BoundShrinks(c.store, r); }
    if c'.store != r {
      AdmittedStep(c.(store := r), t, c');
      NoHoldTwice(c.store, r, c'.store);
    }
  }

  /** The head of the queue becomes RUNNING. */
  lemma AdmittedStep(c: System, t: TaskId, c': System)
    requires Inv(c) && At(c, t, {Preparing})
    requires var e := c.store.executions[t];
      ES.Waiting(c.store, t, e.agent) && ES.SlotFree(c.store, e.maxConcurrency, e.agent)
    requires c' == c.(store := PutExecution(c.store, t, c.store.executions[t].(phase := RUNNING)))
    ensures Inv(c') && (BoundKept(c.store) ==> BoundKept(c'.store)) && NoNewHeld(c.store, c'.store)
  {
    var s := c.store;
    if BoundKept(s) { AdmittedKeepsBound(s, t, s.executions[t].agent); }
    hide Conflict, Stored, BoundKept, ES.SlotFree, Exclusive, ES.NamesOwn, ES.DistinctTickets, ScopesStored;
    FenceKeepsQueue(s, t);
    AdmittedKeepsRows(s, t, c.now);
    SameLeases(s, c'.store);
    hide ES.DistinctGenerations, NoNewLive, FenceKept, NoNewHeld;
    assert OtherRowsStay(s, c'.store, t);
    StageMoves(c, c', t);
    Settled(c, c');
  }

  lemma ReconcileKeepsLiving(s: Store, agent: Option<AgentId>, dead: set<Pid>, t: TaskId)
    requires t in s.executions && s.executions[t].pid !in dead
    ensures t in ES.Reconcile(s, agent, dead).executions
      && ES.Reconcile(s, agent, dead).executions[t] == s.executions[t]
  {
  }

  lemma AdmittedKeepsRows(s: Store, t: TaskId, now: int)
    requires Rows(s) && t in s.executions && s.executions[t].stopConfirmed
    ensures var s' := PutExecution(s, t, s.executions[t].(phase := RUNNING)); Rows(s') && NoNewLive(s, now, s', now)
  {
    hide Conflict, Stored;
    var s' := PutExecution(s, t, s.executions[t].(phase := RUNNING));
    forall id | id in s'.leases && LM.IsLive(s', id, now) ensures LM.IsLive(s, id, now) {
      assert Fenced(s', id) ==> Fenced(s, id);
    }
  }

  lemma LaunchStep(c: System, step: Step, c': System)
    requires Inv(c) && Next(c, step) == Ok(c') && step.Launch?
    ensures Inv(c') && NoNewSlot(c.store, c'.store) && NoNewHeld(c.store, c'.store)
  {
    hide Conflict, Stored, LM.FindConflicts, Exclusive, FenceKept, ScopesStored, ES.NamesOwn, ES.DistinctTickets;
    LaunchRow(c, step, c');
    LaunchKeeps(c.store, step.t, step.id, step.scope, step.ttl, step.readAt, c.now);
    StageMoves(c, c', step.t);
  }

  /** Evidence given up under an own lease that is live already revives nothing. */
  lemma LosesEvidence(s: Store, t: TaskId, now: int)
    requires Rows(s) && t in s.executions && s.executions[t].phase == RUNNING
    requires s.executions[t].lease.Some? && ReservationLive(s, t, now)
    ensures var s' := PutExecution(s, t, s.executions[t].(stopConfirmed := false));
      Keeps(s, s', now) && NoNewSlot(s, s')
  {
    hide Conflict, Stored;
    var e, s' := s.executions[t], PutExecution(s, t, s.executions[t].(stopConfirmed := false));
    FencedByOwnLease(s, t, e.(stopConfirmed := false));
    hide Rows;
    forall id | id in s'.leases && LM.IsLive(s', id, now) ensures LM.IsLive(s, id, now) {
      assert Fenced(s', id) ==> Fenced(s, id) || e.lease == Some(id);
    }
  }

  /**
   * A recovery is launched under its live reservation; a "running" report comes from inside the execution's own lease.
   */
  lemma RunsOnStep(c: System, step: Step, c': System)
    requires Inv(c) && Next(c, step) == Ok(c') && (step.LaunchRecovery? || step.ReportRunning?)
    ensures Inv(c') && NoNewSlot(c.store, c'.store) && NoNewHeld(c.store, c'.store)
  {
    hide Conflict, Stored, Rows, Exclusive, Keeps, NoNewHeld, NoNewSlot;
    StepWritesOneRow(c, step, c');
    LosesEvidence(c.store, step.t, c.now);
    RowSettled(c, step, c');
  }

  /** A stop: the row is stopped and the lease it names is released. */
  lemma StopsAndReleases(s: Store, t: TaskId, e': Execution, s': Store, now: int)
    requires Rows(s) && t in s.executions && Calms(s.executions[t], e') && !Occupies(e') && e'.lease.Some?
    requires LM.Release(PutExecution(s, t, e'), e'.lease.value, e'.agent) == Ok(s')
    ensures Keeps(s, s', now) && NoNewSlot(s, s')
  {
    hide Keeps, Rows, NoNewSlot, Conflict, LM.Release;
    var s1 := PutExecution(s, t, e');
    ExecutionCalmed(s, t, e', now);
    assert Rows(s1) by { UnfoldKeeps(s, s1, now); }
    Released(s1, e'.lease.value, e'.agent, now);
    Chained(s, s1, s', now);
  }

  lemma UnfoldKeeps(s: Store, s': Store, now: int)
    requires Keeps(s, s', now)
    ensures Rows(s') && NoNewHeld(s, s')
  {
  }

  lemma AbandonStep(c: System, step: Step, c': System)
    requires Inv(c) && Next(c, step) == Ok(c') && (step.StopWaiting? || step.Abandon? || step.AbandonRecovery?)
    ensures Inv(c') && NoNewSlot(c.store, c'.store) && NoNewHeld(c.store, c'.store)
  {
    hide Conflict, Stored, Rows, Exclusive, Keeps, NoNewHeld, NoNewSlot, LM.Release;
    var e := c.store.executions[step.t];
    StepWritesOneRow(c, step, c');
    if step.AbandonRecovery? {
      StopsAndReleases(c.store, step.t, Stopped(e), c'.store, c.now);
    } else {
      assert c'.store == PutExecution(c.store, step.t, Stopped(e));
      ExecutionCalmed(c.store, step.t, Stopped(e), c.now);
    }
    RowSettled(c, step, c');
  }

  /** A late stop report of a quarantined execution frees its lease. */
  lemma StopsAndConfirms(s: Store, t: TaskId, s': Store, now: int)
    requires Rows(s) && t in s.executions && s.executions[t].lease.Some?
    requires var e := s.executions[t];
      LM.ConfirmStopped(PutExecution(s, t, Stopped(e)), e.lease.value, e.agent) == Ok(s')
    ensures Keeps(s, s', now) && NoNewSlot(s, s') && s.executions[t].lease.value in s'.leases
    ensures s'.leases[s.executions[t].lease.value].state != HELD
  {
    hide Keeps, Rows, NoNewSlot, Conflict;
    var e := s.executions[t];
    var s1 := PutExecution(s, t, Stopped(e));
    ExecutionCalmed(s, t, Stopped(e), now);
    UnfoldKeeps(s, s1, now);
    Confirmed(s1, e.lease.value, e.agent, now);
    hide LM.ConfirmStopped;
    Chained(s, s1, s', now);
  }

  lemma ReportStep(c: System, step: Step, c': System)
    requires Inv(c) && Next(c, step) == Ok(c') && (step.ReportUnconfirmed? || step.ReportStopped?)
    ensures Inv(c') && NoNewSlot(c.store, c'.store) && NoNewHeld(c.store, c'.store)
  {
    hide Conflict, Stored, Exclusive, Keeps, NoNewHeld, LM.ConfirmStopped, ScopesStored, ES.NamesOwn,
      ES.DistinctTickets, ES.DistinctGenerations;
    var t, e := step.t, c.store.executions[step.t];
    StepWritesOneRow(c, step, c');
    if step.ReportUnconfirmed? || e.stopConfirmed {
      assert c'.store.executions == c.store.executions;
      NothingChanges(c.store, c.now);
    } else if e.phase != Phase.QUARANTINED {
      assert c'.store == PutExecution(c.store, t, e.(stopConfirmed := true));
      ExecutionCalmed(c.store, t, e.(stopConfirmed := true), c.now);
    } else {
      StopsAndConfirms(c.store, t, c'.store, c.now);
    }
    RowSettled(c, step, c');
  }

  lemma NothingChanges(s: Store, now: int)
    requires Rows(s)
    ensures Keeps(s, s, now) && NoNewSlot(s, s)
  {
    hide LM.IsLive;
  }

  lemma DecideStep(c: System, step: Step, c': System)
    requires Inv(c) && Next(c, step) == Ok(c') && step.Decide?
    ensures Inv(c') && (!step.evidence ==> NoNewSlot(c.store, c'.store)) && NoNewHeld(c.store, c'.store)
  {
    hide Conflict, Stored, Exclusive, Keeps, NoNewHeld, ScopesStored, ES.NamesOwn, ES.DistinctTickets,
      ES.DistinctGenerations;
    var e := c.store.executions[step.t];
    var e' := e.(phase := if step.evidence then RUNNING else Phase.QUARANTINED, stopConfirmed := step.evidence);
    StepWritesOneRow(c, step, c');
    assert c'.store == PutExecution(c.store, step.t, e');
    ExecutionCalmed(c.store, step.t, e', c.now);
    RowSettled(c, step, c');
  }

  lemma CommitStep(c: System, step: Step, c': System)
    requires Inv(c) && Next(c, step) == Ok(c') && step.Commit?
    ensures Inv(c') && NoNewSlot(c.store, c'.store) && NoNewHeld(c.store, c'.store)
  {
    hide Conflict, Stored, Rows, Exclusive, Keeps, NoNewHeld, NoNewSlot, LM.Release, LM.Quarantine;
    var t, e := step.t, c.store.executions[step.t];
    StepWritesOneRow(c, step, c');
    if CommitTx(c.store, t, c.stages[e.generation].stopped).Err? {
      NothingChanges(c.store, c.now);
    } else if c.stages[e.generation].stopped {
      StopsAndReleases(c.store, t, Stopped(e), c'.store, c.now);
    } else {
      CommitQuarantines(c, t);
      Quarantined(c.store, e.lease.value, e.agent, c.now);
    }
    RowSettled(c, step, c');
  }

  /** The lease that a commit without stop evidence quarantines is a fence, or is no longer held. */
  lemma CommitQuarantines(c: System, t: TaskId)
    requires Inv(c) && At(c, t, {Decided(false)})
    ensures var e := c.store.executions[t];
      e.lease.Some? && e.lease.value in c.store.leases
      && (c.store.leases[e.lease.value].state == HELD ==> Fenced(c.store, e.lease.value))
  {
    hide Exclusive, ScopesStored, ES.DistinctTickets, ES.DistinctGenerations;
  }

  lemma QuarantinesRow(s: Store, t: TaskId, s': Store, now: int)
    requires Rows(s) && t in s.executions && !s.executions[t].stopConfirmed
    requires TakeOverTx(s, t, true) == Ok(s')
    ensures Keeps(s, s', now) && NoNewSlot(s, s')
  {
    hide Conflict, Stored, Keeps, NoNewSlot, LM.Quarantine, ScopesStored, ES.DistinctTickets, ES.DistinctGenerations;
    var e := s.executions[t];
    var s1 := PutExecution(s, t, e.(phase := Phase.QUARANTINED));
    ExecutionCalmed(s, t, e.(phase := Phase.QUARANTINED), now);
    UnfoldKeeps(s, s1, now);
    assert Fenced(s1, e.lease.value);
    Quarantined(s1, e.lease.value, e.agent, now);
    Chained(s, s1, s', now);
  }

  lemma TakeOverStep(c: System, step: Step, c': System)
    requires Inv(c) && Next(c, step) == Ok(c') && step.TakeOver?
    ensures Inv(c') && NoNewSlot(c.store, c'.store) && NoNewHeld(c.store, c'.store)
  {
    hide Conflict, Stored, Exclusive, Keeps, NoNewHeld, NoNewSlot, LM.Quarantine, ScopesStored, ES.DistinctTickets,
      ES.DistinctGenerations;
    var t, e := step.t, c.store.executions[step.t];
    StepWritesOneRow(c, step, c');
    if !step.authorized && (e.phase == QUEUED || (e.phase == RUNNING && e.stopConfirmed)) {
      if e.phase == QUEUED { FenceKeepsQueue(c.store, t); }
      assert c'.store == PutExecution(c.store, t, e.(phase := STOPPED));
      ExecutionCalmed(c.store, t, e.(phase := STOPPED), c.now);
    } else if step.authorized && !e.stopConfirmed {
      QuarantinesRow(c.store, t, c'.store, c.now);
    } else {
      NothingChanges(c.store, c.now);
    }
    RowSettled(c, step, c');
  }

  /** What waits in the queue has its stop evidence. */
  lemma FenceKeepsQueue(s: Store, t: TaskId)
    requires FenceKept(s) && t in s.executions && !Occupies(s.executions[t])
    ensures s.executions[t].stopConfirmed
  {
  }

  lemma CancelBeforeLaunch(s: Store, t: TaskId)
    requires ES.NamesOwn(s) && t in s.executions
      && (s.executions[t].phase == QUEUED || s.executions[t].phase == STOPPED)
    ensures var e, s2 := s.executions[t], PutExecution(s, t, StoppedRow(s.executions[t]));
      CancelTx(s, t) ==
      if e.lease.Some? && s.leases[e.lease.value].state == HELD then LM.Release(s2, e.lease.value, e.agent) else Ok(s2)
  {
    hide LM.Release;
    var e1 := ES.RequestCancel(s, t).executions[t];
    assert s.executions[t := e1][t := StoppedRow(s.executions[t])] == s.executions[t := StoppedRow(s.executions[t])];
    assert e1.(phase := STOPPED, stopConfirmed := true) == StoppedRow(s.executions[t]);
  }

  /** A cancellation before launch stops the execution and releases a held reservation. */
  lemma CancelPrelaunch(s: Store, t: TaskId, now: int)
    requires Rows(s) && t in s.executions && (s.executions[t].phase == QUEUED || s.executions[t].phase == STOPPED)
    requires CancelTx(s, t).Ok?
    ensures var s', e := CancelTx(s, t).value, s.executions[t];
      && Keeps(s, s', now) && NoNewSlot(s, s')
        && (e.lease.Some? ==> e.lease.value in s'.leases && s'.leases[e.lease.value].state != HELD)
  {
    hide Conflict, Stored, CancelTx, Keeps, NoNewSlot, FenceKept, ScopesStored, ES.DistinctTickets,
      ES.DistinctGenerations;
    var e := s.executions[t];
    CancelBeforeLaunch(s, t);
    if e.lease.Some? && s.leases[e.lease.value].state == HELD {
      StopsAndReleases(s, t, StoppedRow(e), CancelTx(s, t).value, now);
    } else {
      ExecutionCalmed(s, t, StoppedRow(e), now);
    }
  }

  lemma CancelRunning(s: Store, t: TaskId, now: int)
    requires Rows(s) && t in s.executions && s.executions[t].phase != QUEUED && s.executions[t].phase != STOPPED
    ensures CancelTx(s, t).Ok? && Keeps(s, CancelTx(s, t).value, now) && NoNewSlot(s, CancelTx(s, t).value)
    ensures CancelTx(s, t).value.leases == s.leases
  {
    hide Keeps, NoNewSlot, FenceKept, ScopesStored, ES.NamesOwn, ES.DistinctTickets, ES.DistinctGenerations;
    ExecutionCalmed(s, t, s.executions[t].(cancelled := true), now);
    if s.executions[t].cancelled { NothingChanges(s, now); }
  }

  lemma CancelStep(c: System, t: TaskId, c': System)
    requires Inv(c) && Next(c, Cancel(t)) == Ok(c')
    ensures Inv(c') && NoNewSlot(c.store, c'.store) && NoNewHeld(c.store, c'.store)
  {
    hide Conflict, Stored, CancelTx, Exclusive, Keeps, NoNewHeld, NoNewSlot;
    if t !in c.store.executions {
      assert c' == c by { hide Rows, Staged; CancelsNothing(c.store, t); }
      NothingChanges(c.store, c.now);
      UnfoldKeeps(c.store, c.store, c.now);
    } else {
      StepWritesOneRow(c, Cancel(t), c');
      if c.store.executions[t].phase == QUEUED || c.store.executions[t].phase == STOPPED {
        CancelPrelaunch(c.store, t, c.now);
      } else {
        CancelRunning(c.store, t, c.now);
      }
      RowSettled(c, Cancel(t), c');
    }
  }

  lemma CancelsNothing(s: Store, t: TaskId)
    requires t !in s.executions
    ensures CancelTx(s, t) == Ok(s)
  {
  }

  /** Every step of every process keeps the invariant, and holds no lease again that was not held. */
  lemma StepKeepsInv(c: System, step: Step, c': System)
    requires Inv(c) && Next(c, step) == Ok(c')
    ensures Inv(c') && NoNewHeld(c.store, c'.store)
  {
    hide Inv, NoNewHeld;
    match step {
      case Tick(_) => SweepStep(c, step, c');
      case Crash(_) => SweepStep(c, step, c');
      case TaskChange(_) => SweepStep(c, step, c');
      case Reap => SweepStep(c, step, c');
      case ToolAcquire(_, _, _, _, _, _) => ToolStep(c, step, c');
      case ToolRenew(_, _, _) => ToolStep(c, step, c');
      case ToolRelease(_, _) => ToolStep(c, step, c');
      case Reconcile(agent) => ReconcileStep(c, agent);
      case Enqueue(t, attempt, holder, maxConcurrency, g, pid) => EnqueueStep(c, t, attempt, holder, maxConcurrency, g,
        pid);
      case Admit(t) => AdmitStep(c, t, c');
      case Launch(_, _, _, _, _) => LaunchStep(c, step, c');
      case StopWaiting(_) => AbandonStep(c, step, c');
      case Abandon(_) => AbandonStep(c, step, c');
      case PrepareRecovery(t, attempt, holder, maxConcurrency, g, pid, id, scope, ttl) =>
        PrepareRecoveryStep(c, t, attempt, holder, maxConcurrency, g, pid, id, scope, ttl, c');
      case LaunchRecovery(_) => RunsOnStep(c, step, c');
      case AbandonRecovery(_) => AbandonStep(c, step, c');
      case ReportRunning(_) => RunsOnStep(c, step, c');
      case ReportUnconfirmed(_) => ReportStep(c, step, c');
      case ReportStopped(_) => ReportStep(c, step, c');
      case Decide(_, _) => DecideStep(c, step, c');
      case Commit(_) => CommitStep(c, step, c');
      case Cancel(t) => CancelStep(c, t, c');
      case TakeOver(_, _, _) => TakeOverStep(c, step, c');
    }
  }

  /** Every state of every run satisfies the invariant. */
  lemma {:induction false} RunKeepsInv(states: seq<System>, steps: seq<Step>, i: nat)
    requires Run(states, steps) && i < |states|
    ensures Inv(states[i])
  {
    hide Next, Inv;
    if i == 0 {
      InitialInv(states[0]);
    } else {
      RunKeepsInv(states, steps, i - 1);
      assert Next(states[i - 1], steps[i - 1]) == Ok(states[i - 1 + 1]);
      StepKeepsInv(states[i - 1], steps[i - 1], states[i]);
    }
  }

  lemma InitialInv(c: System)
    requires Initial(c)
    ensures Inv(c)
  {
  }
}
