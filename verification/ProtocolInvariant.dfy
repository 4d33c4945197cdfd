/**
 * The invariant of the control plane, and how the operations on the store keep it.
 *
 * Apart from `acquire`, every operation only takes liveness, slots and fences away.
 */
module ProtocolInvariant {
  import opened Bridge
  import opened WriteScopes
  import opened ControlStore
  import opened Protocol
  import LM = LeaseManager
  import ES = ExecutionService

  // ---------------------------------------------------------------- the invariant

  predicate Occupies(e: Execution) {
    e.phase == RUNNING || e.phase == Phase.QUARANTINED
  }

  /** An execution without stop evidence occupies a slot and names a lease that is HELD or QUARANTINED. */
  ghost predicate FenceKept(s: Store) {
    forall t :: t in s.executions && !s.executions[t].stopConfirmed ==>
      var e := s.executions[t];
      Occupies(e) && e.lease.Some? && e.lease.value in s.leases && Listed(s.leases[e.lease.value])
  }

  ghost predicate ScopesStored(s: Store) {
    forall id :: id in s.leases ==> Stored(s.leases[id].scope)
  }

  ghost predicate Rows(s: Store) {
    && ES.NamesOwn(s) && FenceKept(s) && ScopesStored(s)
    && ES.DistinctTickets(s) && ES.DistinctGenerations(s)
  }

  predicate SameOwner(a: Lease, b: Lease) {
    a.task == b.task && a.holder == b.holder
  }

  /** Two live leases of different owners have no conflicting pair of patterns. */
  ghost predicate Exclusive(s: Store, now: int) {
    forall a, b | a in s.leases && b in s.leases && LM.IsLive(s, a, now) && LM.IsLive(s, b, now)
      && !SameOwner(s.leases[a], s.leases[b]) :: !Conflict(s.leases[a].scope, s.leases[b].scope)
  }

  /** No agent occupies more slots than any of its occupying executions allows. */
  ghost predicate BoundKept(s: Store) {
    forall t :: t in s.executions && Occupies(s.executions[t]) ==>
      |ES.Occupied(s, s.executions[t].agent)| <= s.executions[t].maxConcurrency
  }

  /** How the row of a generation agrees with the stage of its living executor. */
  predicate Agrees(s: Store, e: Execution, stage: Stage) {
    match stage
    case Preparing => e.stopConfirmed
    case Launched => e.lease.Some?
    case Decided(true) => e.lease.Some?
    case Decided(false) => e.lease.Some? &&
      ((e.phase == Phase.QUARANTINED && !e.stopConfirmed)
       || (e.phase == STOPPED && e.lease.value in s.leases && s.leases[e.lease.value].state != HELD))
    case Finished => true
  }

  ghost predicate Staged(c: System) {
    forall t :: t in c.store.executions ==>
      var e := c.store.executions[t];
      e.generation in c.stages && (e.pid !in c.dead ==> Agrees(c.store, e, c.stages[e.generation]))
  }

  ghost predicate Inv(c: System) {
    Rows(c.store) && Exclusive(c.store, c.now) && Staged(c)
  }

  // ---------------------------------------------------------------- how liveness can change

  predicate SameTerms(a: Lease, b: Lease) {
    a.task == b.task && a.holder == b.holder && a.scope == b.scope
  }

  /** Every lease that is live afterwards was live before, on the same terms. */
  ghost predicate NoNewLive(s: Store, now: int, s': Store, now': int) {
    forall id :: id in s'.leases && LM.IsLive(s', id, now') ==>
      id in s.leases && LM.IsLive(s, id, now) && SameTerms(s.leases[id], s'.leases[id])
  }

  lemma ExclusiveShrinks(s: Store, now: int, s': Store, now': int)
    requires Exclusive(s, now) && NoNewLive(s, now, s', now')
    ensures Exclusive(s', now')
  {
    hide Conflict;
  }

  /** The slots an agent occupies only shrink, on unchanged terms. */
  ghost predicate NoNewSlot(s: Store, s': Store) {
    forall t :: t in s'.executions && Occupies(s'.executions[t]) ==>
      && t in s.executions && Occupies(s.executions[t])
      && s'.executions[t].agent == s.executions[t].agent
      && s'.executions[t].maxConcurrency == s.executions[t].maxConcurrency
  }

  lemma BoundShrinks(s: Store, s': Store)
    requires BoundKept(s) && NoNewSlot(s, s')
    ensures BoundKept(s')
  {
    forall t | t in s'.executions && Occupies(s'.executions[t])
      ensures |ES.Occupied(s', s'.executions[t].agent)| <= s'.executions[t].maxConcurrency
    {
      var agent := s'.executions[t].agent;
      assert ES.Occupied(s', agent) <= ES.Occupied(s, agent);
      SubsetSize(ES.Occupied(s', agent), ES.Occupied(s, agent));
    }
  }

  lemma {:induction false} SubsetSize<T>(a: set<T>, b: set<T>)
    requires a <= b
    ensures |a| <= |b|
  {
    if a != {} {
      var x :| x in a;
      SubsetSize(a - {x}, b - {x});
    }
  }

  /** No lease comes to be HELD that was not. */
  ghost predicate NoNewHeld(s: Store, s': Store) {
    forall id :: id in s.leases ==> id in s'.leases && (s.leases[id].state != HELD ==> s'.leases[id].state != HELD)
  }

  /** What every operation keeps that acquires nothing. */
  ghost predicate Keeps(s: Store, s': Store, now: int) {
    Rows(s') && NoNewLive(s, now, s', now) && NoNewHeld(s, s')
  }

  // ---------------------------------------------------------------- one execution changes

  /** The new row keeps the identity and the lease, and retracts no evidence. */
  predicate Calms(e: Execution, e': Execution) {
    && e'.agent == e.agent && e'.generation == e.generation && e'.ticket == e.ticket
    && e'.maxConcurrency == e.maxConcurrency && e'.lease == e.lease
    && (e.stopConfirmed ==> e'.stopConfirmed)
    && (!e'.stopConfirmed ==> Occupies(e'))
  }

  /** Which lease a row fences depends on its lease and its evidence alone. */
  lemma CalmedRevivesNothing(s: Store, t: TaskId, e': Execution, now: int)
    requires t in s.executions && Calms(s.executions[t], e')
    ensures NoNewLive(s, now, PutExecution(s, t, e'), now)
  {
    var s' := PutExecution(s, t, e');
    forall id | id in s'.leases && LM.IsLive(s', id, now) ensures LM.IsLive(s, id, now) {
      assert Fenced(s', id) ==> Fenced(s, id);
    }
  }

  lemma CalmedKeepsFence(s: Store, t: TaskId, e': Execution)
    requires Rows(s) && t in s.executions && Calms(s.executions[t], e')
    ensures FenceKept(PutExecution(s, t, e')) && ES.NamesOwn(PutExecution(s, t, e'))
  {
    hide Stored, ScopesStored, ES.DistinctTickets, ES.DistinctGenerations;
  }

  lemma CalmedKeepsIdentity(s: Store, t: TaskId, e': Execution)
    requires Rows(s) && t in s.executions && Calms(s.executions[t], e')
    ensures ES.DistinctTickets(PutExecution(s, t, e')) && ES.DistinctGenerations(PutExecution(s, t, e'))
  {
    hide Stored, ScopesStored, FenceKept, ES.NamesOwn;
  }

  lemma ExecutionCalmed(s: Store, t: TaskId, e': Execution, now: int)
    requires Rows(s) && t in s.executions && Calms(s.executions[t], e')
    ensures Keeps(s, PutExecution(s, t, e'), now)
    ensures (Occupies(e') ==> Occupies(s.executions[t])) ==> NoNewSlot(s, PutExecution(s, t, e'))
  {
    CalmedRevivesNothing(s, t, e', now);
    CalmedKeepsFence(s, t, e');
    CalmedKeepsIdentity(s, t, e');
    hide Conflict, Stored, NoNewLive, FenceKept, ES.NamesOwn, ES.DistinctTickets, ES.DistinctGenerations;
  }

  // ---------------------------------------------------------------- one lease changes

  /** The new row keeps the terms, stays listed if it is a fence, and is not live unless it was. */
  ghost predicate Loosens(s: Store, id: LeaseId, l': Lease, now: int)
    requires id in s.leases
  {
    && SameTerms(s.leases[id], l')
    && (Fenced(s, id) ==> Listed(l')) && (s.leases[id].state != HELD ==> l'.state != HELD)
    && (LM.IsLive(PutLease(s, id, l'), id, now) ==> LM.IsLive(s, id, now))
  }

  lemma LeaseLoosened(s: Store, id: LeaseId, l': Lease, now: int)
    requires Rows(s) && id in s.leases && Loosens(s, id, l', now)
    ensures var s' := PutLease(s, id, l'); Keeps(s, s', now) && NoNewSlot(s, s')
  {
    hide Conflict;
    var s' := PutLease(s, id, l');
    assert forall t :: t in s.executions && s.executions[t].lease == Some(id) ==> s.leases[id].task == t;
    assert FenceKept(s');
  }

  /** Release, in whatever transaction it happens, frees no fence and revives no lease. */
  lemma Released(s: Store, id: LeaseId, holder: AgentId, now: int)
    requires Rows(s) && LM.Release(s, id, holder).Ok?
    ensures var s' := LM.Release(s, id, holder).value; Keeps(s, s', now) && NoNewSlot(s, s')
  {
    if s.leases[id].state == HELD {
      LeaseLoosened(s, id, s.leases[id].(state := RELEASED), now);
    }
  }

  /** Quarantine revives no lease when the lease is the fence of an execution. */
  lemma Quarantined(s: Store, id: LeaseId, holder: AgentId, now: int)
    requires Rows(s) && LM.Quarantine(s, id, holder).Ok? && (s.leases[id].state == HELD ==> Fenced(s, id))
    ensures var s' := LM.Quarantine(s, id, holder).value; Keeps(s, s', now) && NoNewSlot(s, s')
  {
    if s.leases[id].state == HELD {
      LeaseLoosened(s, id, s.leases[id].(state := LeaseState.QUARANTINED), now);
    }
  }

  lemma Renewed(s: Store, id: LeaseId, holder: AgentId, ttl: int, now: int)
    requires Rows(s) && LM.Renew(s, id, holder, ttl, now).Ok?
    ensures var s' := LM.Renew(s, id, holder, ttl, now).value; Keeps(s, s', now) && NoNewSlot(s, s')
  {
    LeaseLoosened(s, id, s.leases[id].(expiresAt := now + ttl), now);
  }

  lemma Confirmed(s: Store, id: LeaseId, holder: AgentId, now: int)
    requires Rows(s) && LM.ConfirmStopped(s, id, holder).Ok?
    ensures var s' := LM.ConfirmStopped(s, id, holder).value; Keeps(s, s', now) && NoNewSlot(s, s')
    ensures var s' := LM.ConfirmStopped(s, id, holder).value;
      s'.executions == s.executions && s'.leases[id].state != HELD
  {
    var l := s.leases[id];
    if Listed(l) {
      LeaseLoosened(s, id, l.(state := RELEASED), now);
      if l.state == LeaseState.QUARANTINED {
        assert s.leases[id := l.(state := HELD)][id := l.(state := RELEASED)] == s.leases[id := l.(state := RELEASED)];
      }
    }
  }

  lemma Chained(s: Store, s1: Store, s2: Store, now: int)
    requires Keeps(s, s1, now) && NoNewSlot(s, s1)
    requires Keeps(s1, s2, now) && NoNewSlot(s1, s2)
    ensures Keeps(s, s2, now) && NoNewSlot(s, s2)
  {
    hide Conflict, LM.IsLive, Rows;
  }

  // ---------------------------------------------------------------- sweeps over all rows

  lemma ReapKeepsRows(s: Store, now: int)
    requires Rows(s)
    ensures var s' := LM.ReapExpired(s, now); Keeps(s, s', now) && NoNewSlot(s, s')
  {
    hide Conflict, Stored;
    var s' := LM.ReapExpired(s, now);
    forall id | id in s.leases
      ensures SameTerms(s.leases[id], s'.leases[id]) && Fenced(s, id) == Fenced(s', id)
      ensures LM.IsLive(s', id, now) ==> LM.IsLive(s, id, now)
    {}
    ReapedStore(s, now);
  }

  /** Reaping changes no execution, and a lease only in its state. */
  lemma ReapedStore(s: Store, now: int)
    ensures var s' := LM.ReapExpired(s, now);
      && s'.executions == s.executions && s'.leases.Keys == s.leases.Keys
      && (forall id :: id in s.leases ==> s'.leases[id] == LM.Reaped(s, id, now))
  {
  }

  lemma ReconcileKeepsFence(s: Store, agent: Option<AgentId>, dead: set<Pid>)
    requires Rows(s)
    ensures FenceKept(ES.Reconcile(s, agent, dead)) && ES.NamesOwn(ES.Reconcile(s, agent, dead))
  {
    hide Conflict, Stored, ES.Orphaned;
  }

  lemma ReconcileRevivesNothing(s: Store, agent: Option<AgentId>, dead: set<Pid>, now: int)
    requires Rows(s)
    ensures NoNewLive(s, now, ES.Reconcile(s, agent, dead), now)
  {
    hide Conflict, Stored, ES.Orphaned, FenceKept, ScopesStored, ES.DistinctTickets, ES.DistinctGenerations;
    var s' := ES.Reconcile(s, agent, dead);
    forall id | id in s'.leases && LM.IsLive(s', id, now)
      ensures LM.IsLive(s, id, now) && SameTerms(s.leases[id], s'.leases[id])
    {
      assert Fenced(s', id) ==> Fenced(s, id);
    }
  }

  lemma ReconcileTakesNoSlot(s: Store, agent: Option<AgentId>, dead: set<Pid>)
    ensures NoNewSlot(s, ES.Reconcile(s, agent, dead))
  {
    hide Conflict, ES.ReconciledLease;
  }

  lemma ReconcileKeepsScopes(s: Store, agent: Option<AgentId>, dead: set<Pid>)
    requires ScopesStored(s)
    ensures ScopesStored(ES.Reconcile(s, agent, dead))
  {
    hide Conflict, Stored, ES.Orphaned, ES.ReconciledExecution;
  }

  lemma ReconcileHoldsNothing(s: Store, agent: Option<AgentId>, dead: set<Pid>)
    ensures NoNewHeld(s, ES.Reconcile(s, agent, dead))
  {
    hide ES.Orphaned, ES.ReconciledExecution;
  }

  lemma ReconcileKeepsRows(s: Store, agent: Option<AgentId>, dead: set<Pid>, now: int)
    requires Rows(s)
    ensures var s' := ES.Reconcile(s, agent, dead); Keeps(s, s', now) && NoNewSlot(s, s')
  {
    hide FenceKept, ES.NamesOwn, NoNewLive, NoNewHeld, NoNewSlot, ScopesStored, ES.DistinctTickets,
      ES.DistinctGenerations;
    hide ES.Reconcile;
    ReconcileKeepsFence(s, agent, dead);
    ReconcileRevivesNothing(s, agent, dead, now);
    ES.ReconcileKeepsIdentity(s, agent, dead);
    ReconcileTakesNoSlot(s, agent, dead);
    ReconcileKeepsScopes(s, agent, dead);
    ReconcileHoldsNothing(s, agent, dead);
  }

  // ---------------------------------------------------------------- a new lease

  /** What the conflict check of `acquire` establishes about every lease that is live at that moment. */
  lemma NothingBlocks(s: Store, id: LeaseId, t: TaskId, holder: AgentId, scope: seq<string>, ttl: int, readAt: int,
      now: int, other: LeaseId)
    requires LM.AcquireTx(s, id, t, holder, scope, ttl, readAt, now).Ok?
    requires other in s.leases && LM.IsLive(s, other, now)
      && !(s.leases[other].task == t && s.leases[other].holder == holder)
    ensures !Conflict(scope, s.leases[other].scope)
  {
    hide Conflict;
    assert other in LM.FindConflicts(s, scope, holder, Some(t), now) <==>
      LM.Blocks(s, other, scope, holder, Some(t), now);
  }

  /** Adding one checked lease keeps exclusion, provided nothing else becomes live. */
  lemma AddedLeaseExclusive(s: Store, s': Store, id: LeaseId, now: int)
    requires Exclusive(s, now) && ScopesStored(s') && id in s'.leases
    requires forall o :: o in s'.leases && o != id && LM.IsLive(s', o, now) ==>
      o in s.leases && LM.IsLive(s, o, now) && SameTerms(s.leases[o], s'.leases[o])
    requires forall o :: o in s.leases && LM.IsLive(s, o, now) && !SameOwner(s.leases[o], s'.leases[id]) ==>
      !Conflict(s'.leases[id].scope, s.leases[o].scope)
    ensures Exclusive(s', now)
  {
    hide Conflict;
    forall a, b | a in s'.leases && b in s'.leases && LM.IsLive(s', a, now) && LM.IsLive(s', b, now)
      && !SameOwner(s'.leases[a], s'.leases[b])
      ensures !Conflict(s'.leases[a].scope, s'.leases[b].scope)
    {
      ConflictSymmetric(s'.leases[a].scope, s'.leases[b].scope);
    }
  }

  lemma AcquireKeeps(s: Store, id: LeaseId, t: TaskId, holder: AgentId, scope: seq<string>, ttl: int, readAt: int,
      now: int)
    requires Rows(s) && Exclusive(s, now) && id !in s.leases && Stored(scope)
    requires LM.AcquireTx(s, id, t, holder, scope, ttl, readAt, now).Ok?
    ensures var s' := LM.AcquireTx(s, id, t, holder, scope, ttl, readAt, now).value;
      Rows(s') && Exclusive(s', now) && NoNewSlot(s, s')
  {
    hide Conflict, Stored;
    var s' := LM.AcquireTx(s, id, t, holder, scope, ttl, readAt, now).value;
    forall o | o in s.leases && LM.IsLive(s, o, now) && !SameOwner(s.leases[o], s'.leases[id])
      ensures !Conflict(s'.leases[id].scope, s.leases[o].scope)
    {
      NothingBlocks(s, id, t, holder, scope, ttl, readAt, now, o);
    }
    AddedLeaseExclusive(s, s', id, now);
  }

  /** An execution may give up its stop evidence under a held lease of its own. */
  lemma FencedByOwnLease(s: Store, t: TaskId, e': Execution)
    requires Rows(s) && t in s.executions
    requires e' == s.executions[t].(stopConfirmed := false, lease := e'.lease)
    requires e'.lease.Some? && e'.lease.value in s.leases && Occupies(e')
    requires var l := s.leases[e'.lease.value]; l.task == t && l.holder == e'.agent && Listed(l)
    ensures Rows(PutExecution(s, t, e')) && NoNewSlot(s, PutExecution(s, t, e'))
  {
    hide Stored;
  }

  /** The launch transaction: the execution gives up its stop evidence and is fenced by the lease just checked. */
  lemma LaunchKeeps(s: Store, t: TaskId, id: LeaseId, scope: seq<string>, ttl: int, readAt: int, now: int)
    requires Rows(s) && Exclusive(s, now) && id !in s.leases && Stored(scope)
    requires t in s.executions && s.executions[t].phase == RUNNING && s.executions[t].lease.None?
    requires LaunchTx(s, t, id, scope, ttl, readAt, now).Ok?
    ensures var s' := LaunchTx(s, t, id, scope, ttl, readAt, now).value;
      Rows(s') && Exclusive(s', now) && NoNewSlot(s, s')
  {
    hide Conflict, Stored, LM.FindConflicts;
    var e := s.executions[t];
    AcquireKeeps(s, id, t, e.agent, scope, ttl, readAt, now);
    var s1 := LM.AcquireTx(s, id, t, e.agent, scope, ttl, readAt, now).value;
    var e' := e.(stopConfirmed := false, lease := Some(id));
    var s' := LaunchTx(s, t, id, scope, ttl, readAt, now).value;
    assert s' == PutExecution(s1, t, e');
    FencedByOwnLease(s1, t, e');
    LaunchExclusive(s, s1, t, id, e', now) by {
      forall o | o in s.leases && LM.IsLive(s, o, now) && !SameOwner(s.leases[o], s1.leases[id])
        ensures !Conflict(scope, s.leases[o].scope)
      {
        NothingBlocks(s, id, t, e.agent, scope, ttl, readAt, now, o);
      }
    }
  }

  lemma LaunchExclusive(s: Store, s1: Store, t: TaskId, id: LeaseId, e': Execution, now: int)
    requires Exclusive(s, now) && ScopesStored(s1) && t in s.executions && s.executions[t].lease.None?
    requires id !in s.leases && id in s1.leases && s1 == PutLease(s, id, s1.leases[id]) && e'.lease == Some(id)
    requires forall o :: o in s.leases && LM.IsLive(s, o, now) && !SameOwner(s.leases[o], s1.leases[id]) ==>
      !Conflict(s1.leases[id].scope, s.leases[o].scope)
    ensures Exclusive(PutExecution(s1, t, e'), now)
  {
    hide Conflict, Stored;
    var s' := PutExecution(s1, t, e');
    forall o | o in s'.leases && o != id && LM.IsLive(s', o, now)
      ensures o in s.leases && LM.IsLive(s, o, now) && SameTerms(s.leases[o], s'.leases[o])
    {
      assert s'.leases[o] == s.leases[o];
      assert Fenced(s', o) ==> Fenced(s, o);
    }
    AddedLeaseExclusive(s, s', id, now);
  }

  // ---------------------------------------------------------------- the queue

  lemma QueueRevivesNothing(s: Store, t: TaskId, attempt: nat, agent: AgentId, maxConcurrency: int, g: Generation,
      pid: Pid, now: int)
    requires Rows(s) && ES.Queue(s, t, attempt, agent, maxConcurrency, g, pid).Ok?
    ensures var s' := ES.Queue(s, t, attempt, agent, maxConcurrency, g, pid).value;
      NoNewLive(s, now, s', now) && NoNewSlot(s, s')
  {
    hide Conflict, Stored, ES.QueuedOf, Rows;
    var s' := ES.Queue(s, t, attempt, agent, maxConcurrency, g, pid).value;
    forall id | id in s'.leases && LM.IsLive(s', id, now) ensures LM.IsLive(s, id, now) {
      assert Fenced(s', id) ==> Fenced(s, id);
    }
  }

  lemma QueueKeepsFence(s: Store, t: TaskId, attempt: nat, agent: AgentId, maxConcurrency: int, g: Generation, pid: Pid)
    requires Rows(s) && ES.Queue(s, t, attempt, agent, maxConcurrency, g, pid).Ok?
    ensures var s' := ES.Queue(s, t, attempt, agent, maxConcurrency, g, pid).value; FenceKept(s') && ES.NamesOwn(s')
  {
    hide Stored, ES.QueuedOf, ScopesStored, ES.DistinctTickets, ES.DistinctGenerations;
  }

  lemma QueueKeepsIdentity(s: Store, t: TaskId, attempt: nat, agent: AgentId, maxConcurrency: int, g: Generation,
      pid: Pid)
    requires Rows(s) && ES.Queue(s, t, attempt, agent, maxConcurrency, g, pid).Ok?
    requires forall u :: u in s.executions ==> s.executions[u].generation != g
    ensures var s' := ES.Queue(s, t, attempt, agent, maxConcurrency, g, pid).value;
      ES.DistinctTickets(s') && ES.DistinctGenerations(s')
  {
    hide ES.QueuedOf, FenceKept, ES.NamesOwn, ScopesStored;
  }

  /** A new generation replaces a stopped execution: it fences nothing and occupies nothing yet. */
  lemma QueueKeeps(s: Store, t: TaskId, attempt: nat, agent: AgentId, maxConcurrency: int, g: Generation, pid: Pid,
      now: int)
    requires Rows(s) && ES.Queue(s, t, attempt, agent, maxConcurrency, g, pid).Ok?
    requires forall u :: u in s.executions ==> s.executions[u].generation != g
    ensures var s' := ES.Queue(s, t, attempt, agent, maxConcurrency, g, pid).value;
      Keeps(s, s', now) && NoNewSlot(s, s')
  {
    QueueRevivesNothing(s, t, attempt, agent, maxConcurrency, g, pid, now);
    QueueKeepsIdentity(s, t, attempt, agent, maxConcurrency, g, pid);
    QueueKeepsFence(s, t, attempt, agent, maxConcurrency, g, pid);
    hide Conflict, Stored, ES.QueuedOf, NoNewLive, NoNewSlot, FenceKept, ES.NamesOwn, ES.DistinctTickets,
      ES.DistinctGenerations;
  }

  /** A lease of its own may be reserved for an execution that keeps its stop evidence. */
  lemma ReservedLease(s: Store, t: TaskId, id: LeaseId, now: int)
    requires Rows(s) && t in s.executions && s.executions[t].stopConfirmed && s.executions[t].lease.None?
    requires id in s.leases && s.leases[id].task == t && s.leases[id].holder == s.executions[t].agent
    ensures var s' := PutExecution(s, t, s.executions[t].(lease := Some(id)));
      Keeps(s, s', now) && NoNewSlot(s, s')
  {
    hide Conflict, Stored;
    var s' := PutExecution(s, t, s.executions[t].(lease := Some(id)));
    forall o | o in s'.leases && LM.IsLive(s', o, now) ensures LM.IsLive(s, o, now) {
      assert Fenced(s', o) ==> Fenced(s, o);
    }
  }

  /** Admission takes one slot, and only when every limit of the agent leaves room for it. */
  lemma AdmittedKeepsBound(s: Store, t: TaskId, agent: AgentId)
    requires BoundKept(s) && ES.Waiting(s, t, agent) && ES.SlotFree(s, s.executions[t].maxConcurrency, agent)
    ensures BoundKept(PutExecution(s, t, s.executions[t].(phase := RUNNING)))
  {
    var s' := PutExecution(s, t, s.executions[t].(phase := RUNNING));
    assert ES.Occupied(s', agent) == ES.Occupied(s, agent) + {t};
    forall u | u in s'.executions && Occupies(s'.executions[u])
      ensures |ES.Occupied(s', s'.executions[u].agent)| <= s'.executions[u].maxConcurrency
    {
      if s'.executions[u].agent != agent {
        assert ES.Occupied(s', s'.executions[u].agent) == ES.Occupied(s, s'.executions[u].agent);
      } else if u != t {
        assert ES.Unstopped(s, u, agent);
      }
    }
  }
}
