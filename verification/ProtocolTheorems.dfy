/** What the control plane guarantees in every state of every run, and exactly when evidence may be given up. */
module ProtocolTheorems {
  import opened Bridge
  import opened WriteScopes
  import opened ControlStore
  import opened Protocol
  import opened ProtocolRows
  import opened ProtocolInvariant
  import opened ProtocolSafety
  import LM = LeaseManager
  import ES = ExecutionService

  // ---------------------------------------------------------------- write exclusion

  /**
   * Write exclusion: in every state of every run, two leases that may both write one path belong to the
   * same holder and the same task.
   */
  lemma WriteExclusion(states: seq<System>, steps: seq<Step>, i: nat, a: LeaseId, b: LeaseId, holderA: AgentId,
      holderB: AgentId, path: string)
    requires Run(states, steps) && i < |states|
    requires LM.PathWritable(states[i].store, a, holderA, path, states[i].now) == Ok(())
    requires LM.PathWritable(states[i].store, b, holderB, path, states[i].now) == Ok(())
    requires Sound(states[i].store.leases[a].scope) && Sound(states[i].store.leases[b].scope)
    ensures holderA == holderB && states[i].store.leases[a].task == states[i].store.leases[b].task
  {
    hide Conflict, Stored, ScopeAllows, LM.QuarantinedElsewhere, Next;
    RunKeepsInv(states, steps, i);
    var s := states[i].store;
    SharedPathConflicts(s.leases[a].scope, s.leases[b].scope, path);
  }

  /** A path under quarantine cannot be written through any other lease, whoever holds it. */
  lemma QuarantineBlocksWrites(s: Store, quarantined: LeaseId, id: LeaseId, holder: AgentId, path: string, now: int)
    requires quarantined in s.leases && s.leases[quarantined].state == LeaseState.QUARANTINED
    requires ScopeAllows(s.leases[quarantined].scope, path) == Ok(true)
    ensures LM.PathWritable(s, id, holder, path, now) != Ok(())
  {
    hide ScopeAllows;
    assert id != quarantined ==> LM.QuarantinedElsewhere(s, id, path, Ok(true));
  }

  // ---------------------------------------------------------------- the quarantine fence

  /** The execution of `t` has no stop evidence. */
  predicate Unconfirmed(c: System, t: TaskId) {
    t in c.store.executions && !c.store.executions[t].stopConfirmed
  }

  /**
   * The fence: an execution without stop evidence names a lease of its task that is HELD or QUARANTINED and
   * live at any clock; nobody can release it, and nobody can acquire another lease for the task. Once it is
   * quarantined, nobody can write the paths it covers through any lease.
   */
  lemma QuarantineFence(states: seq<System>, steps: seq<Step>, i: nat, t: TaskId)
    requires Run(states, steps) && i < |states| && Unconfirmed(states[i], t)
    ensures states[i].store.executions[t].phase != STOPPED
    ensures FenceOf(states[i].store, t)
  {
    hide Next, Exclusive;
    RunKeepsInv(states, steps, i);
    FenceHolds(states[i].store, t);
  }

  ghost predicate FenceOf(s: Store, t: TaskId)
    requires t in s.executions
  {
    exists id :: s.executions[t].lease == Some(id) && id in s.leases && s.leases[id].task == t && Listed(s.leases[id])
      && (forall now :: LM.IsLive(s, id, now))
      && (forall holder :: LM.Release(s, id, holder).Err?)
      && (forall other, holder, scope, ttl, readAt,
        now :: LM.AcquireTx(s, other, t, holder, scope, ttl, readAt, now).Err?)
      && (s.leases[id].state == LeaseState.QUARANTINED ==> ClosedToWrites(s, s.leases[id].scope))
  }

  /** No path that the scope allows can be written. */
  ghost predicate ClosedToWrites(s: Store, scope: seq<string>) {
    forall id, holder, path, now :: ScopeAllows(scope, path) == Ok(true) ==>
      LM.PathWritable(s, id, holder, path, now) != Ok(())
  }

  lemma QuarantineCloses(s: Store, quarantined: LeaseId)
    requires quarantined in s.leases && s.leases[quarantined].state == LeaseState.QUARANTINED
    ensures ClosedToWrites(s, s.leases[quarantined].scope)
  {
    hide ScopeAllows, LM.PathWritable;
    forall id, holder, path, now | ScopeAllows(s.leases[quarantined].scope, path) == Ok(true)
      ensures LM.PathWritable(s, id, holder, path, now) != Ok(())
    {
      QuarantineBlocksWrites(s, quarantined, id, holder, path, now);
    }
  }

  lemma FenceHolds(s: Store, t: TaskId)
    requires Rows(s) && t in s.executions && !s.executions[t].stopConfirmed
    ensures FenceOf(s, t)
  {
    hide Conflict, Stored, ClosedToWrites;
    var id := s.executions[t].lease.value;
    assert Fenced(s, id);
    forall other, holder, scope, ttl, readAt, now
      ensures LM.AcquireTx(s, other, t, holder, scope, ttl, readAt, now).Err?
    {
      assert LM.FencesTask(s, id, Some(t));
      assert id in LM.FindConflicts(s, scope, holder, Some(t), now);
    }
    forall now ensures LM.IsLive(s, id, now) {}
    forall holder ensures LM.Release(s, id, holder).Err? {}
    if s.leases[id].state == LeaseState.QUARANTINED { QuarantineCloses(s, id); }
  }

  /** The steps that carry positive stop evidence for the execution of `t`. */
  predicate EvidenceStep(c: System, step: Step, t: TaskId) {
    || step == ReportStopped(t)
    || step == Decide(t, true)
    || (step == Commit(t) && At(c, t, {Decided(true)}))
  }

  /** The row of `t` keeps its generation and its lease, and still has no stop evidence. */
  ghost predicate StillFenced(c: System, c': System, t: TaskId)
    requires t in c.store.executions
  {
    && Unconfirmed(c', t)
    && c'.store.executions[t].generation == c.store.executions[t].generation
    && c'.store.executions[t].lease == c.store.executions[t].lease
  }

  lemma SameRowStillFences(c: System, c': System, t: TaskId)
    requires Unconfirmed(c, t) && t in c'.store.executions && c'.store.executions[t] == c.store.executions[t]
    ensures StillFenced(c, c', t)
  {
  }

  lemma FencedOccupies(c: System, t: TaskId)
    requires Inv(c) && Unconfirmed(c, t)
    ensures Occupies(c.store.executions[t]) && c.store.executions[t].lease.Some? && !At(c, t, {Preparing})
  {
  }

  lemma ReconcileStillFences(c: System, agent: Option<AgentId>, t: TaskId)
    requires Unconfirmed(c, t) && Occupies(c.store.executions[t])
    ensures StillFenced(c, c.(store := ES.Reconcile(c.store, agent, c.dead)), t)
  {
    hide ES.ReconciledLease;
  }

  lemma QueueStillFences(c: System, step: Step, c': System, t: TaskId)
    requires Next(c, step) == Ok(c') && Unconfirmed(c, t) && Occupies(c.store.executions[t])
    requires step.Enqueue? || step.PrepareRecovery?
    ensures StillFenced(c, c', t)
  {
    hide Next;
    StepQueuesRow(c, step, c');
  }

  lemma AdmitStillFences(c: System, u: TaskId, c': System, t: TaskId)
    requires Next(c, Admit(u)) == Ok(c') && Unconfirmed(c, t) && Occupies(c.store.executions[t])
    ensures StillFenced(c, c', t)
  {
    hide Next, ES.Reconcile, ES.SlotFree;
    StepAdmits(c, u, c');
    ReconcileStillFences(c, Some(c.store.executions[u].agent), t);
  }

  /** No step but those with evidence writes evidence into the row of a launched execution, or changes its lease. */
  lemma RowStillFences(c: System, step: Step, e: Execution, e': Execution)
    requires ChangesRow(step) && RowBecomes(c, step, e, e') && !e.stopConfirmed && Occupies(e) && e.lease.Some?
    requires !At(c, step.t, {Preparing}) && !EvidenceStep(c, step, step.t)
    ensures !e'.stopConfirmed && e'.generation == e.generation && e'.lease == e.lease
  {
  }

  lemma OneRowStillFences(c: System, step: Step, c': System, t: TaskId)
    requires Inv(c) && Next(c, step) == Ok(c') && Unconfirmed(c, t) && !EvidenceStep(c, step, t) && ChangesRow(step)
    ensures StillFenced(c, c', t)
  {
    hide Next, Inv, RowBecomes, At, EvidenceStep;
    StepWritesOneRow(c, step, c');
    FencedOccupies(c, t);
    if step.t == t { RowStillFences(c, step, c.store.executions[t], c'.store.executions[t]); }
  }

  /** No other step - release, reap, cancel, crash, takeover, recovery, tick - frees the fence or changes its lease. */
  lemma OnlyEvidenceFrees(c: System, step: Step, c': System, t: TaskId)
    requires Inv(c) && Next(c, step) == Ok(c') && Unconfirmed(c, t) && !EvidenceStep(c, step, t)
    ensures StillFenced(c, c', t)
  {
    hide Inv, Next, EvidenceStep, StillFenced;
    FencedOccupies(c, t);
    if step.Reconcile? {
      StepReconciles(c, step.agent, c');
      ReconcileStillFences(c, step.agent, t);
    } else if step.Admit? {
      AdmitStillFences(c, step.t, c', t);
    } else if step.Enqueue? || step.PrepareRecovery? {
      QueueStillFences(c, step, c', t);
    } else if KeepsRows(step) {
      StepKeepsRows(c, step, c');
      SameRowStillFences(c, c', t);
    } else {
      OneRowStillFences(c, step, c', t);
    }
  }

  /** Over any stretch of a run without evidence for `t`, its execution, its lease and the fence persist. */
  lemma {:induction false} FencePersists(states: seq<System>, steps: seq<Step>, i: nat, j: nat, t: TaskId)
    requires Run(states, steps) && i <= j < |states| && Unconfirmed(states[i], t)
    requires forall k :: i <= k < j ==> !EvidenceStep(states[k], steps[k], t)
    ensures Unconfirmed(states[j], t) && FenceOf(states[j].store, t)
    ensures states[j].store.executions[t].generation == states[i].store.executions[t].generation
    ensures states[j].store.executions[t].lease == states[i].store.executions[t].lease
  {
    hide Next, Inv, FenceOf;
    if i == j {
      QuarantineFence(states, steps, i, t);
    } else {
      FencePersists(states, steps, i, j - 1, t);
      RunKeepsInv(states, steps, j - 1);
      assert Next(states[j - 1], steps[j - 1]) == Ok(states[j - 1 + 1]);
      OnlyEvidenceFrees(states[j - 1], steps[j - 1], states[j], t);
      QuarantineFence(states, steps, j, t);
    }
  }

  // ---------------------------------------------------------------- exactly when evidence may be given up

  /** The store after the execution of `t` has lost its stop evidence. */
  function WithoutEvidence(s: Store, t: TaskId): Store
    requires t in s.executions
  {
    PutExecution(s, t, s.executions[t].(stopConfirmed := false))
  }

  /** The execution occupies a slot and names a lease that is HELD or QUARANTINED. */
  predicate MayBeFenced(s: Store, t: TaskId)
    requires t in s.executions
  {
    var e := s.executions[t];
    Occupies(e) && e.lease.Some? && e.lease.value in s.leases && Listed(s.leases[e.lease.value])
  }

  /** Giving up stop evidence, by retraction or by an unchecked launch, keeps the fence exactly in these states. */
  lemma EvidenceLossKeepsFence(s: Store, t: TaskId)
    requires Rows(s) && t in s.executions
    ensures FenceKept(WithoutEvidence(s, t)) <==> MayBeFenced(s, t)
  {
    var s' := WithoutEvidence(s, t);
    assert FenceKept(s') ==> (!s'.executions[t].stopConfirmed ==> MayBeFenced(s, t));
  }

  /** The lease is live already, or no live lease of another owner conflicts with it. */
  ghost predicate MayRevive(s: Store, id: LeaseId, now: int)
    requires id in s.leases
  {
    LM.IsLive(s, id, now)
    || forall o | o in s.leases && LM.IsLive(s, o, now) && !SameOwner(s.leases[o], s.leases[id]) ::
      !Conflict(s.leases[id].scope, s.leases[o].scope)
  }

  /** ... and keeps write exclusion exactly when the named lease is live already or conflicts with nobody. */
  lemma EvidenceLossKeepsExclusion(s: Store, t: TaskId, now: int)
    requires Rows(s) && Exclusive(s, now) && t in s.executions && MayBeFenced(s, t)
    ensures Exclusive(WithoutEvidence(s, t), now) <==> MayRevive(s, s.executions[t].lease.value, now)
  {
    hide Conflict, Stored;
    var id, s' := s.executions[t].lease.value, WithoutEvidence(s, t);
    assert Fenced(s', id) && LM.IsLive(s', id, now);
    forall o | o in s.leases && o != id ensures LM.IsLive(s', o, now) == LM.IsLive(s, o, now) {
      assert Fenced(s', o) == Fenced(s, o);
    }
    if MayRevive(s, id, now) {
      if LM.IsLive(s, id, now) {
        ExclusiveShrinks(s, now, s', now);
      } else {
        AddedLeaseExclusive(s, s', id, now);
      }
    }
  }

  /**
   * The recovery launch does not look at its reservation. Its holder may release the reserved lease before the
   * launch, and the launch then leaves a running execution without a fence.
   */
  lemma ReleasedReservationUnfenced(c: System, t: TaskId)
    requires Inv(c) && At(c, t, {Preparing}) && c.store.executions[t].phase == RUNNING
      && !c.store.executions[t].cancelled
    requires c.store.executions[t].lease.Some? && ReservationLive(c.store, t, c.now)
    ensures var release := ToolRelease(c.store.executions[t].lease.value, c.store.executions[t].agent);
      && Next(c, release).Ok?
      && LaunchRecoveryTx(Next(c, release).value.store, t).Ok?
      && !FenceKept(LaunchRecoveryTx(Next(c, release).value.store, t).value)
  {
    hide Conflict, Stored, Exclusive;
    var id := c.store.executions[t].lease.value;
    assert !Fenced(c.store, id);
    var c1 := Next(c, ToolRelease(id, c.store.executions[t].agent)).value;
    Released(c.store, id, c.store.executions[t].agent, c.now);
    EvidenceLossKeepsFence(c1.store, t);
    assert LaunchRecoveryTx(c1.store, t).value == WithoutEvidence(c1.store, t);
  }

  /** Launching under a reservation that timed out breaks exclusion as soon as somebody else took the scope. */
  lemma ExpiredReservationCollides(c: System, t: TaskId, taken: LeaseId)
    requires Inv(c) && t in c.store.executions && c.store.executions[t].stopConfirmed && MayBeFenced(c.store, t)
    requires var id := c.store.executions[t].lease.value;
      c.store.leases[id].state == HELD && c.store.leases[id].expiresAt <= c.now
      && taken in c.store.leases && LM.IsLive(c.store, taken, c.now)
        && !SameOwner(c.store.leases[taken], c.store.leases[id])
      && Conflict(c.store.leases[id].scope, c.store.leases[taken].scope)
    ensures !Exclusive(WithoutEvidence(c.store, t), c.now)
  {
    hide Conflict, Stored, Staged;
    EvidenceLossKeepsExclusion(c.store, t, c.now);
  }

  /**
   * The commit after a confirmed stop is refused exactly when the lease has been quarantined before the stop was
   * confirmed.
   */
  lemma CommitRefusedExactly(s: Store, t: TaskId)
    requires Rows(s) && t in s.executions && s.executions[t].lease.Some?
    ensures CommitTx(s, t, true).Err? <==> s.leases[s.executions[t].lease.value].state == LeaseState.QUARANTINED
  {
    hide Conflict, Stored;
  }

  /** Between a confirmed stop and the commit no reap quarantines the lease: it can only expire. */
  lemma ReapAfterStopExpires(s: Store, t: TaskId, now: int)
    requires Rows(s) && t in s.executions && s.executions[t].lease.Some? && s.executions[t].stopConfirmed
    ensures var id := s.executions[t].lease.value;
      LM.ReapExpired(s, now).leases[id].state == LeaseState.QUARANTINED <==>
        s.leases[id].state == LeaseState.QUARANTINED
  {
    hide Conflict, Stored;
  }
}
