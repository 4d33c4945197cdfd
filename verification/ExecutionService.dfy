/**
 * Durable admission and generation fencing (shared/control-plane/src/execution-service.ts).
 *
 * `dead` is the set of process ids for which `processAlive` answers no.
 */
module ExecutionService {
  import opened Bridge
  import opened ControlStore

  const MAX_QUEUED := 64

  /** The highest ticket any stored execution carries, or 0. */
  ghost function MaxTicket(executions: map<TaskId, Execution>): (m: int)
    ensures m >= 0
    ensures forall t :: t in executions ==> executions[t].ticket <= m
    ensures m == 0 || exists t :: t in executions && executions[t].ticket == m
    decreases |executions|
  {
    if executions == map[] then 0
    else
      var t :| t in executions;
      var rest := executions - {t};
      assert forall u :: u in executions ==> u == t || u in rest;
      var m := MaxTicket(rest);
      if executions[t].ticket > m then executions[t].ticket else m
  }

  function QueuedOf(s: Store, agent: AgentId): set<TaskId> {
    set t | t in s.executions && s.executions[t].agent == agent && s.executions[t].phase == QUEUED
  }

  /** A new execution replaces the task's stopped one and takes the next ticket. */
  ghost function Queue(s: Store, t: TaskId, attempt: nat, agent: AgentId, maxConcurrency: int, generation: Generation,
      pid: Pid): Result<Store> {
    if t in s.executions && s.executions[t].phase != STOPPED then Err(OPERATION_IN_PROGRESS)
    else if |QueuedOf(s, agent)| >= MAX_QUEUED then Err(ADAPTER_FAILURE)
    else Ok(PutExecution(s, t, Execution(
      attempt, agent, generation, QUEUED, pid, maxConcurrency, MaxTicket(s.executions) + 1, true, None, false)))
  }

  /** The executions that occupy a slot of the agent. */
  function Occupied(s: Store, agent: AgentId): set<TaskId> {
    set t | t in s.executions && s.executions[t].agent == agent
      && (s.executions[t].phase == RUNNING || s.executions[t].phase == Phase.QUARANTINED)
  }

  predicate Unstopped(s: Store, t: TaskId, agent: AgentId) {
    t in s.executions && s.executions[t].agent == agent && s.executions[t].phase != STOPPED
  }

  /** Queued and not cancelled: a candidate for admission. */
  predicate Waiting(s: Store, t: TaskId, agent: AgentId) {
    t in s.executions && s.executions[t].agent == agent && s.executions[t].phase == QUEUED && !s.executions[t].cancelled
  }

  /** The candidate with the least ticket. */
  ghost predicate Head(s: Store, t: TaskId, agent: AgentId) {
    Waiting(s, t, agent) && forall u :: Waiting(s, u, agent) ==> s.executions[t].ticket <= s.executions[u].ticket
  }

  /** There is a free slot under every declared limit of the agent's unstopped executions. */
  ghost predicate SlotFree(s: Store, limit: int, agent: AgentId) {
    && |Occupied(s, agent)| < limit
    && forall t :: Unstopped(s, t, agent) ==> |Occupied(s, agent)| < s.executions[t].maxConcurrency
  }

  function Current(s: Store, t: TaskId, record: Execution): Result<Execution> {
    if t !in s.executions || s.executions[t].generation != record.generation
      || s.executions[t].attempt != record.attempt
    then Err(ILLEGAL_TRANSITION)
    else Ok(s.executions[t])
  }

  /** `reconcileExecutors` looks at this record. */
  predicate Orphaned(e: Execution, agent: Option<AgentId>, dead: set<Pid>) {
    && (agent.Some? ==> e.agent == agent.value)
    && e.phase != STOPPED && e.phase != Phase.QUARANTINED
    && e.pid != 0 && e.pid in dead
  }

  /** No runtime can have been launched for it. */
  predicate Prelaunch(e: Execution) {
    e.phase == QUEUED || e.stopConfirmed
  }

  function ReconciledExecution(e: Execution, agent: Option<AgentId>, dead: set<Pid>): Execution {
    if !Orphaned(e, agent, dead) then e
    else if Prelaunch(e) then e.(phase := STOPPED, stopConfirmed := true)
    else e.(phase := Phase.QUARANTINED)
  }

  /** The lease an orphaned execution names is released before launch and quarantined after it. */
  function ReconciledLease(s: Store, id: LeaseId, agent: Option<AgentId>, dead: set<Pid>): Lease
    requires id in s.leases
  {
    var l := s.leases[id];
    if l.state == HELD && l.task in s.executions && s.executions[l.task].lease == Some(id)
      && Orphaned(s.executions[l.task], agent, dead)
    then l.(state := if Prelaunch(s.executions[l.task]) then RELEASED else LeaseState.QUARANTINED)
    else l
  }

  function Reconcile(s: Store, agent: Option<AgentId>, dead: set<Pid>): Store {
    s.(executions := map t | t in s.executions :: ReconciledExecution(s.executions[t], agent, dead),
       leases := map id | id in s.leases :: ReconciledLease(s, id, agent, dead))
  }

  /** `tryAdmit`: whether the head of the queue is admitted, and the store afterwards. */
  ghost function TryAdmit(s: Store, t: TaskId, record: Execution, dead: set<Pid>): Result<(Store, bool)> {
    var r := Reconcile(s, Some(record.agent), dead);
    var current :- Current(r, t, record);
    if current.cancelled then Ok((r, false))
    else if !SlotFree(r, record.maxConcurrency, record.agent) || !Head(r, t, record.agent) then Ok((r, false))
    else Ok((PutExecution(r, t, current.(phase := RUNNING)), true))
  }

  /** The fields an update may change. */
  datatype Patch = Patch(phase: Option<Phase>, stopConfirmed: Option<bool>, lease: Option<LeaseId>)

  function Patched(e: Execution, p: Patch): Execution {
    e.(phase := if p.phase.Some? then p.phase.value else e.phase,
       stopConfirmed := if p.stopConfirmed.Some? then p.stopConfirmed.value else e.stopConfirmed,
       lease := if p.lease.Some? then p.lease else e.lease)
  }

  function Update(s: Store, t: TaskId, record: Execution, p: Patch): Result<Store> {
    var current :- Current(s, t, record);
    Ok(PutExecution(s, t, Patched(current, p)))
  }

  function RequestCancel(s: Store, t: TaskId): Store {
    if t !in s.executions || s.executions[t].phase == STOPPED || s.executions[t].cancelled then s
    else PutExecution(s, t, s.executions[t].(cancelled := true))
  }

  /** `assertCallback`: the callback comes from a running, uncancelled execution inside its live lease. */
  function CallbackAllowed(s: Store, t: TaskId, record: Execution, now: int): Result<()> {
    var current :- Current(s, t, record);
    if current.phase != RUNNING || current.cancelled
      || t !in s.tasks || s.tasks[t].attempt != record.attempt
      || s.tasks[t].owner != Some(record.agent) || s.tasks[t].terminal
      || current.lease.None? || current.lease.value !in s.leases
      || s.leases[current.lease.value].state != HELD || s.leases[current.lease.value].expiresAt <= now
    then Err(LEASE_INVALID)
    else Ok(())
  }

  // ---------------------------------------------------------------- what the rows must satisfy

  /** An execution names only a lease of its own task and agent. */
  ghost predicate NamesOwn(s: Store) {
    forall t :: t in s.executions && s.executions[t].lease.Some? ==>
      var id := s.executions[t].lease.value;
      id in s.leases && s.leases[id].task == t && s.leases[id].holder == s.executions[t].agent
  }

  ghost predicate DistinctTickets(s: Store) {
    forall t, u :: t in s.executions && u in s.executions && t != u ==> s.executions[t].ticket != s.executions[u].ticket
  }

  ghost predicate DistinctGenerations(s: Store) {
    forall t, u :: t in s.executions && u in s.executions && t != u ==>
      s.executions[t].generation != s.executions[u].generation
  }

  // ---------------------------------------------------------------- what fencing and cancellation mean

  predicate SameIdentity(e: Execution, e': Execution) {
    && e'.generation == e.generation && e'.attempt == e.attempt && e'.agent == e.agent && e'.pid == e.pid
    && e'.ticket == e.ticket && e'.maxConcurrency == e.maxConcurrency && e'.cancelled == e.cancelled
  }

  /** An update leaves the generation current, so its executor may go on, and touches no other row and no identity. */
  lemma UpdateStaysCurrent(s: Store, t: TaskId, record: Execution, p: Patch, next: Patch)
    requires Update(s, t, record, p).Ok?
    ensures var s' := Update(s, t, record, p).value;
      && Update(s', t, record, next).Ok?
      && s'.leases == s.leases && s'.executions.Keys == s.executions.Keys
      && (forall u :: u in s.executions && u != t ==> s'.executions[u] == s.executions[u])
      && SameIdentity(s.executions[t], s'.executions[t])
  {
  }

  /** Once a new generation is queued, no executor of another one can update, be admitted, or call back. */
  lemma ObsoleteIsRefused(s: Store, t: TaskId, attempt: nat, agent: AgentId, maxConcurrency: int, g: Generation,
      pid: Pid, record: Execution, p: Patch, dead: set<Pid>, now: int)
    requires Queue(s, t, attempt, agent, maxConcurrency, g, pid).Ok? && record.generation != g
    ensures var s' := Queue(s, t, attempt, agent, maxConcurrency, g, pid).value;
      && Update(s', t, record, p) == Err(ILLEGAL_TRANSITION)
      && TryAdmit(s', t, record, dead) == Err(ILLEGAL_TRANSITION)
      && CallbackAllowed(s', t, record, now) == Err(ILLEGAL_TRANSITION)
  {
    hide QueuedOf, SlotFree, Head, ReconciledLease, Orphaned;
  }

  /** A cancelled execution is never admitted and its callbacks are refused; the others wait in line as before. */
  lemma CancelledIsFenced(s: Store, t: TaskId, record: Execution, dead: set<Pid>, now: int)
    requires t in s.executions && s.executions[t].phase != STOPPED
    ensures var s' := RequestCancel(s, t);
      && RequestCancel(s', t) == s'
      && (TryAdmit(s', t, record, dead).Ok? ==> !TryAdmit(s', t, record, dead).value.1)
      && CallbackAllowed(s', t, record, now).Err?
      && (forall u, agent :: Waiting(s', u, agent) <==> u != t && Waiting(s, u, agent))
  {
    hide SlotFree, Head, ReconciledLease, Orphaned;
  }

  /** The store when only the records in `done` have been reconciled. */
  ghost function ReconcileOnly(s: Store, agent: Option<AgentId>, dead: set<Pid>, done: set<TaskId>): Store {
    s.(executions := map t | t in s.executions :: if t in done then ReconciledExecution(s.executions[t], agent, dead)
      else s.executions[t],
       leases := map id | id in s.leases :: if s.leases[id].task in done then ReconciledLease(s, id, agent, dead)
         else s.leases[id])
  }

  lemma ReconcileNone(s: Store, agent: Option<AgentId>, dead: set<Pid>)
    ensures ReconcileOnly(s, agent, dead, {}) == s
  {
    assert ReconcileOnly(s, agent, dead, {}).executions == s.executions;
    assert ReconcileOnly(s, agent, dead, {}).leases == s.leases;
  }

  lemma ReconcileAll(s: Store, agent: Option<AgentId>, dead: set<Pid>, done: set<TaskId>)
    requires done == s.executions.Keys
    ensures ReconcileOnly(s, agent, dead, done) == Reconcile(s, agent, dead)
  {
    assert ReconcileOnly(s, agent, dead, done).executions == Reconcile(s, agent, dead).executions;
    assert ReconcileOnly(s, agent, dead, done).leases == Reconcile(s, agent, dead).leases;
  }

  /** The effect of one round of the loop: the record, and the held lease it names. */
  lemma ReconcileOne(s: Store, agent: Option<AgentId>, dead: set<Pid>, done: set<TaskId>, t: TaskId)
    requires NamesOwn(s) && t in s.executions && t !in done
    ensures var before, after := ReconcileOnly(s, agent, dead, done), ReconcileOnly(s, agent, dead, done + {t});
      var e := s.executions[t];
      && before.executions[t] == e
      && after.executions == before.executions[t := ReconciledExecution(e, agent, dead)]
      && after.tasks == before.tasks
      && (if Orphaned(e, agent, dead) && e.lease.Some? && s.leases[e.lease.value].state == HELD
          then before.leases[e.lease.value] == s.leases[e.lease.value]
            && after.leases == before.leases[e.lease.value := s.leases[e.lease.value].(state := if Prelaunch(e)
              then RELEASED else LeaseState.QUARANTINED)]
          else after.leases == before.leases)
      && (e.lease.Some? ==> before.leases[e.lease.value] == s.leases[e.lease.value])
  {
    hide Orphaned, Prelaunch;
  }

  lemma ReconcileOnlyKeys(s: Store, agent: Option<AgentId>, dead: set<Pid>, done: set<TaskId>)
    ensures ReconcileOnly(s, agent, dead, done).executions.Keys == s.executions.Keys
    ensures ReconcileOnly(s, agent, dead, done).leases.Keys == s.leases.Keys
  {
  }

  lemma NamedLeaseExists(s: Store, t: TaskId)
    requires NamesOwn(s) && t in s.executions
    ensures s.executions[t].lease.Some? ==> s.executions[t].lease.value in s.leases
  {
  }

  lemma ReconcileKeepsIdentity(s: Store, agent: Option<AgentId>, dead: set<Pid>)
    requires DistinctTickets(s) && DistinctGenerations(s)
    ensures var s' := Reconcile(s, agent, dead); DistinctTickets(s') && DistinctGenerations(s')
  {
    hide ReconciledLease, Orphaned;
  }

  /** A limit that is the least of the record's own and of the agent's unstopped executions. */
  ghost predicate IsLeast(s: Store, limit: int, own: int, agent: AgentId) {
    && limit <= own && (forall t :: Unstopped(s, t, agent) ==> limit <= s.executions[t].maxConcurrency)
    && (limit == own || exists t :: Unstopped(s, t, agent) && limit == s.executions[t].maxConcurrency)
  }

  /** Comparing with the least limit is comparing with every one. */
  lemma LeastDecides(s: Store, limit: int, own: int, agent: AgentId)
    requires IsLeast(s, limit, own, agent)
    ensures |Occupied(s, agent)| < limit <==> SlotFree(s, own, agent)
  {
    hide Occupied, Unstopped;
  }

  /** The first candidate is the record exactly if it has its generation. */
  lemma FirstDecides(s: Store, t: TaskId, record: Execution, first: Option<TaskId>, agent: AgentId)
    requires DistinctTickets(s) && DistinctGenerations(s) && Current(s, t, record).Ok?
    requires first.Some? ==> Head(s, first.value, agent)
    requires first.None? ==> forall u :: !Waiting(s, u, agent)
    ensures first.Some? && s.executions[first.value].generation == record.generation <==> Head(s, t, agent)
  {
  }

  // ---------------------------------------------------------------- the service

  class Executions {
    const store: Database

    constructor (store: Database)
      ensures this.store == store
    {
      this.store := store;
    }

    method NextTicket() returns (ticket: int)
      ensures ticket == MaxTicket(store.executions) + 1
    {
      ticket := 0;
      var todo := store.executions.Keys;
      while todo != {}
        invariant todo <= store.executions.Keys
        invariant ticket >= 0
        invariant forall t :: t in store.executions && t !in todo ==> store.executions[t].ticket <= ticket
        invariant ticket == 0 || exists t :: t in store.executions && store.executions[t].ticket == ticket
        decreases |todo|
      {
        var t :| t in todo;
        todo := todo - {t};
        if store.executions[t].ticket > ticket { ticket := store.executions[t].ticket; }
      }
      ticket := ticket + 1;
    }

    method QueueExecution(t: TaskId, attempt: nat, agent: AgentId, maxConcurrency: int, generation: Generation,
        pid: Pid)
      returns (r: Result<Execution>)
      modifies store`executions
      ensures match Queue(old(store.View()), t, attempt, agent, maxConcurrency, generation, pid)
        case Ok(s) => store.View() == s && r == Ok(store.executions[t])
        case Err(c) => r == Err(c) && store.View() == old(store.View())
    {
      if t in store.executions && store.executions[t].phase != STOPPED { return Err(OPERATION_IN_PROGRESS); }
      if |QueuedOf(store.View(), agent)| >= MAX_QUEUED { return Err(ADAPTER_FAILURE); }
      var ticket := NextTicket();
      var record := Execution(attempt, agent, generation, QUEUED, pid, maxConcurrency, ticket, true, None, false);
      store.executions := store.executions[t := record];
      return Ok(record);
    }

    /** The loop of `reconcileExecutors`: one record at a time, each with the lease it names. */
    method ReconcileExecutors(agent: Option<AgentId>, dead: set<Pid>)
      requires NamesOwn(store.View())
      modifies store`executions, store`leases
      ensures store.View() == Reconcile(old(store.View()), agent, dead)
    {
      hide ReconcileOnly, NamesOwn;
      ghost var s := store.View();
      ghost var done: set<TaskId> := {};
      var todo := store.executions.Keys;
      ReconcileNone(s, agent, dead);
      while todo != {}
        invariant done !! todo && done + todo == s.executions.Keys
        invariant store.View() == ReconcileOnly(s, agent, dead, done)
        decreases |todo|
      {
        hide Reconcile, Orphaned, Prelaunch, ReconciledExecution;
        var t :| t in todo;
        ReconcileOnlyKeys(s, agent, dead, done);
        NamedLeaseExists(s, t);
        ReconcileOne(s, agent, dead, done, t);
        ReconcileRecord(t, agent, dead);
        todo, done := todo - {t}, done + {t};
      }
      ReconcileAll(s, agent, dead, done);
    }

    /** The body of that loop. */
    method ReconcileRecord(t: TaskId, agent: Option<AgentId>, dead: set<Pid>)
      requires t in store.executions
      modifies store`executions, store`leases
      ensures var e, leases := old(store.executions[t]), old(store.leases);
        && store.executions == old(store.executions)[t := ReconciledExecution(e, agent, dead)]
        && store.leases == if Orphaned(e, agent, dead) && e.lease.Some? && e.lease.value in leases
          && leases[e.lease.value].state == HELD
           then leases[e.lease.value := leases[e.lease.value].(state := if Prelaunch(e) then RELEASED
             else LeaseState.QUARANTINED)]
           else leases
    {
      var record := store.executions[t];
      if record.phase == STOPPED || record.phase == Phase.QUARANTINED || record.pid == 0 || record.pid !in dead
        || (agent.Some? && record.agent != agent.value)
      {
        assert store.executions[t := record] == store.executions;
        return;
      }
      var named := record.lease.Some? && record.lease.value in store.leases
        && store.leases[record.lease.value].state == HELD;
      if record.phase == QUEUED || record.stopConfirmed {
        store.executions := store.executions[t := record.(phase := STOPPED, stopConfirmed := true)];
        if named {
          store.leases := store.leases[record.lease.value := store.leases[record.lease.value].(state := RELEASED)];
        }
      } else {
        store.executions := store.executions[t := record.(phase := Phase.QUARANTINED)];
        if named {
          var quarantined := store.leases[record.lease.value].(state := LeaseState.QUARANTINED);
          store.leases := store.leases[record.lease.value := quarantined];
        }
      }
    }

    /** The least limit among the record's own and those of the agent's unstopped executions. */
    method LeastLimit(own: int, agent: AgentId) returns (limit: int)
      ensures IsLeast(store.View(), limit, own, agent)
    {
      limit := own;
      var todo := store.executions.Keys;
      while todo != {}
        invariant todo <= store.executions.Keys
        invariant limit <= own && forall t :: Unstopped(store.View(), t, agent) && t !in todo ==>
          limit <= store.executions[t].maxConcurrency
        invariant limit == own
          || exists t :: Unstopped(store.View(), t, agent) && limit == store.executions[t].maxConcurrency
        decreases |todo|
      {
        var t :| t in todo;
        todo := todo - {t};
        if Unstopped(store.View(), t, agent) && store.executions[t].maxConcurrency < limit {
          limit := store.executions[t].maxConcurrency;
        }
      }
    }

    /** The first candidate in ticket order. */
    method First(agent: AgentId) returns (first: Option<TaskId>)
      ensures first.Some? ==> Head(store.View(), first.value, agent) && first.value in store.executions
      ensures first.None? ==> forall u :: !Waiting(store.View(), u, agent)
    {
      first := None;
      var todo := store.executions.Keys;
      while todo != {}
        invariant todo <= store.executions.Keys
        invariant first.Some? ==> Waiting(store.View(), first.value, agent)
        invariant first.Some? ==> forall u :: Waiting(store.View(), u, agent) && u !in todo ==>
          store.executions[first.value].ticket <= store.executions[u].ticket
        invariant first.None? ==> forall u :: Waiting(store.View(), u, agent) ==> u in todo
        decreases |todo|
      {
        var t :| t in todo;
        todo := todo - {t};
        if Waiting(store.View(), t, agent)
          && (first.None? || store.executions[t].ticket < store.executions[first.value].ticket) {
          first := Some(t);
        }
      }
    }

    method Admit(t: TaskId, record: Execution, dead: set<Pid>) returns (r: Result<bool>)
      requires NamesOwn(store.View()) && DistinctTickets(store.View()) && DistinctGenerations(store.View())
      modifies store`executions, store`leases
      ensures match TryAdmit(old(store.View()), t, record, dead)
        case Ok(p) => r == Ok(p.1) && store.View() == p.0
        case Err(c) => r == Err(c) && store.View() == old(store.View())
    {
      hide Reconcile, SlotFree, Head, IsLeast, DistinctTickets, DistinctGenerations, NamesOwn;
      ghost var s := store.View();
      var executions, leases := store.executions, store.leases;
      ReconcileExecutors(Some(record.agent), dead);
      ReconcileKeepsIdentity(s, Some(record.agent), dead);
      var current := Current(store.View(), t, record);
      if current.Err? {
        store.executions, store.leases := executions, leases;  // rollback
        return Err(current.code);
      }
      if current.value.cancelled { return Ok(false); }
      var running := |Occupied(store.View(), record.agent)|;
      var limit := LeastLimit(record.maxConcurrency, record.agent);
      var first := First(record.agent);
      LeastDecides(store.View(), limit, record.maxConcurrency, record.agent);
      FirstDecides(store.View(), t, record, first, record.agent);
      if running >= limit || first.None?
        || store.executions[first.value].generation != record.generation { return Ok(false); }
      store.executions := store.executions[t := current.value.(phase := RUNNING)];
      return Ok(true);
    }

    method UpdateExecution(t: TaskId, record: Execution, p: Patch) returns (r: Result<Execution>)
      modifies store`executions
      ensures match Update(old(store.View()), t, record, p)
        case Ok(s) => store.View() == s && r == Ok(store.executions[t])
        case Err(c) => r == Err(c) && store.View() == old(store.View())
    {
      var current := Current(store.View(), t, record);
      if current.Err? { return Err(current.code); }
      var next := Patched(current.value, p);
      store.executions := store.executions[t := next];
      return Ok(next);
    }

    method Cancel(t: TaskId)
      modifies store`executions
      ensures store.View() == RequestCancel(old(store.View()), t)
    {
      if t !in store.executions || store.executions[t].phase == STOPPED || store.executions[t].cancelled { return; }
      store.executions := store.executions[t := store.executions[t].(cancelled := true)];
    }
  }
}
