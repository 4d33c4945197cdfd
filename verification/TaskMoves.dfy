/**
 * Which requests `TaskService` accepts, and what they leave behind (shared/control-plane/src/task-service.ts:97-732,
 * shared/protocol/src/types.ts:41-75): the states are spelled out, without the transition table.
 */
module TaskMoves {
  import opened Bridge
  import opened TaskGraph
  import opened TaskService
  import opened TaskRuns

  predicate IsOwner(s: Store, id: TaskId, agent: AgentId) {
    id in s.tasks && s.tasks[id].owner == Some(agent)
  }

  /** Every dependency that the row names is DONE. */
  predicate NamedDependenciesDone(s: Store, id: TaskId)
    requires id in s.tasks
  {
    forall d :: d in s.tasks[id].dependencies ==> IsDone(s, d)
  }

  /** The row is what it was, `writes` versions later, in this state. */
  ghost predicate MovedRow(s: Store, s': Store, id: TaskId, state: TaskState, writes: nat)
    requires id in s.tasks
  {
    s' == s.(tasks := s.tasks[id := s.tasks[id].(state := state, version := s.tasks[id].version + writes)])
  }

  lemma GateOfRow(s: Store, id: TaskId)
    requires GraphInv(s) && id in s.tasks
    ensures DependenciesDone(s, id) <==> NamedDependenciesDone(s, id)
  {
    hide Acyclic;
    assert forall d :: d in s.tasks[id].dependencies <==> (id, d) in s.edges;
  }

  // ---------------------------------------------------------------- the owner moves a task

  /** The states from which an owner may ask for this one. */
  function Before(to: TaskState): set<TaskState> {
    match to
    case PENDING => {CLAIMED}
    case CLAIMED => {PENDING, BLOCKED}
    case WORKING => {CLAIMED, BLOCKED, VERIFYING}
    case BLOCKED => {CLAIMED, WORKING, VERIFYING}
    case VERIFYING => {WORKING}
    case DONE => {VERIFYING}
    case FAILED => {WORKING, BLOCKED, VERIFYING}
    case CANCELLED => {PENDING, CLAIMED, WORKING, BLOCKED}
  }

  /** The task is there already, or may go there and, on the way into work, nothing it depends on is missing. */
  predicate MayMove(s: Store, id: TaskId, to: TaskState)
    requires id in s.tasks
  {
    var state := s.tasks[id].state;
    state == to || (state in Before(to) && (to == WORKING ==> NamedDependenciesDone(s, id)))
  }

  lemma TransitionExactly(s: Store, id: TaskId, agent: AgentId, to: TaskState)
    requires GraphInv(s)
    ensures Transition(s, id, agent, to).Ok? <==> IsOwner(s, id, agent) && MayMove(s, id, to)
    ensures Transition(s, id, agent, to).Ok? ==>
      var s' := Transition(s, id, agent, to).value;
      if s.tasks[id].state == to then s' == s else MovedRow(s, s', id, to, 1)
  {
    if id in s.tasks {
      GateOfRow(s, id);
      TableSays(s.tasks[id].state, to);
    }
    hide GraphInv, DependenciesDone, NamedDependenciesDone, CanTransition, Before;
  }

  /** The transition table, read the other way round. */
  lemma TableSays(from: TaskState, to: TaskState)
    ensures CanTransition(from, to) <==> from in Before(to)
  {
  }

  predicate MayEnd(state: TaskState, outcome: TaskState) {
    || state in {outcome, WORKING, VERIFYING}
    || (outcome == BLOCKED && state == CLAIMED)
    || (outcome == FAILED && state == BLOCKED)
  }

  /**
   * A deliverable is accepted from work and from verification alike, whatever its outcome, and the task ends in that
   * outcome; DONE costs two writes from WORKING, because verification is passed on the way.
   */
  lemma FinalizeExactly(s: Store, id: TaskId, agent: AgentId, outcome: TaskState)
    requires outcome in {DONE, BLOCKED, FAILED}
    ensures Finalize(s, id, agent, outcome).Ok? <==> IsOwner(s, id, agent) && MayEnd(s.tasks[id].state, outcome)
    ensures Finalize(s, id, agent, outcome).Ok? ==>
      var s', state := Finalize(s, id, agent, outcome).value, s.tasks[id].state;
      if state == outcome then s' == s
      else MovedRow(s, s', id, outcome, if outcome == DONE && state == WORKING then 2 else 1)
  {
    if IsOwner(s, id, agent) && outcome == DONE && s.tasks[id].state == WORKING {
      var t := s.tasks[id];
      assert s.tasks[id := Moved(t, VERIFYING)][id := Moved(Moved(t, VERIFYING), DONE)]
        == s.tasks[id := Moved(Moved(t, VERIFYING), DONE)];
    }
  }

  lemma BlockExactly(s: Store, id: TaskId, agent: AgentId)
    ensures Block(s, id, agent).Ok? <==>
      IsOwner(s, id, agent) && s.tasks[id].state in {CLAIMED, WORKING, VERIFYING}
    ensures Block(s, id, agent).Ok? ==> MovedRow(s, Block(s, id, agent).value, id, BLOCKED, 1)
  {
  }

  /** Unblocking needs no gate, and leaves a task that is not blocked alone. */
  lemma UnblockExactly(s: Store, id: TaskId, agent: AgentId)
    ensures Unblock(s, id, agent).Ok? <==> IsOwner(s, id, agent)
    ensures Unblock(s, id, agent).Ok? ==>
      var s' := Unblock(s, id, agent).value;
      if s.tasks[id].state == BLOCKED then MovedRow(s, s', id, WORKING, 1) else s' == s
  {
  }

  // ---------------------------------------------------------------- owners come and go

  /** An unowned task can be claimed while it is pending or blocked; its owner can always claim it again. */
  predicate MayClaim(s: Store, id: TaskId, agent: AgentId) {
    && id in s.tasks
    && if s.tasks[id].owner == None then s.tasks[id].state in {PENDING, BLOCKED} else s.tasks[id].owner == Some(agent)
  }

  lemma ClaimExactly(s: Store, id: TaskId, agent: AgentId)
    ensures Claim(s, id, agent).Ok? <==> MayClaim(s, id, agent)
    ensures Claim(s, id, agent).Ok? ==>
      var s', t := Claim(s, id, agent).value, s.tasks[id];
      if t.owner == None || t.state == PENDING then MovedRow(Given(s, id, Some(agent)), s', id, CLAIMED, 1) else s' == s
  {
    if Claim(s, id, agent).Ok? {
      var t := Claim(s, id, agent).value.tasks[id];
      assert Given(s, id, Some(agent)).tasks[id := t] == s.tasks[id := t];
    }
  }

  /** The store in which the task has this owner and is otherwise as before. */
  function Given(s: Store, id: TaskId, owner: Option<AgentId>): Store
    requires id in s.tasks
  {
    s.(tasks := s.tasks[id := s.tasks[id].(owner := owner)])
  }

  /** Only a task that is claimed and not yet at work can be given back. */
  lemma ReleaseExactly(s: Store, id: TaskId, agent: AgentId)
    ensures Release(s, id, agent).Ok? <==> IsOwner(s, id, agent) && s.tasks[id].state == CLAIMED
    ensures Release(s, id, agent).Ok? ==> MovedRow(Given(s, id, None), Release(s, id, agent).value, id, PENDING, 1)
  {
    if Release(s, id, agent).Ok? {
      var t := Release(s, id, agent).value.tasks[id];
      assert Given(s, id, None).tasks[id := t] == s.tasks[id := t];
    }
  }

  /** The row of a task that begins another attempt. */
  function NextAttempt(t: Task, state: TaskState, owner: Option<AgentId>): Task {
    t.(state := state, owner := owner, attempt := t.attempt + 1, version := t.version + 1)
  }

  lemma RetryExactly(s: Store, id: TaskId, maxAttempts: int)
    ensures Retry(s, id, maxAttempts).Ok? <==>
      id in s.tasks && s.tasks[id].state == FAILED && s.tasks[id].attempt < maxAttempts - 1
    ensures Retry(s, id, maxAttempts).Ok? ==>
      Retry(s, id, maxAttempts).value == s.(tasks := s.tasks[id := NextAttempt(s.tasks[id], PENDING, None)])
  {
  }

  /** A recovery goes on from every state of work, and from FAILED after an interruption, behind the same gate. */
  predicate MayRecover(s: Store, id: TaskId, agent: AgentId, nextAttempt: nat, e: Evidence) {
    && IsOwner(s, id, agent) && !e.needsRepair && !e.tooEarly && e.lineage
    && (s.tasks[id].state in {CLAIMED, WORKING, BLOCKED, VERIFYING} || (s.tasks[id].state == FAILED && e.interrupted))
    && nextAttempt == s.tasks[id].attempt + 1 && NamedDependenciesDone(s, id)
  }

  lemma RecoverExactly(s: Store, id: TaskId, agent: AgentId, nextAttempt: nat, e: Evidence)
    requires GraphInv(s)
    ensures BeginRecovery(s, id, agent, nextAttempt, e).Ok? <==> MayRecover(s, id, agent, nextAttempt, e)
    ensures BeginRecovery(s, id, agent, nextAttempt, e).Ok? ==>
      BeginRecovery(s, id, agent, nextAttempt, e).value
        == s.(tasks := s.tasks[id := NextAttempt(s.tasks[id], WORKING, Some(agent))])
  {
    if id in s.tasks { GateOfRow(s, id); }
    hide GraphInv, DependenciesDone, NamedDependenciesDone;
  }

  // ---------------------------------------------------------------- new tasks and new dependencies

  /** A new task is pending, unowned, and depends on exactly what was asked, which exists. */
  lemma CreateExactly(s: Store, id: TaskId, deps: seq<TaskId>, now: int)
    requires GraphInv(s) && id !in s.tasks
    ensures Create(s, id, deps, now).Ok? <==> forall d :: d in deps ==> d in s.tasks
    ensures Create(s, id, deps, now).Ok? ==>
      var s' := Create(s, id, deps, now).value;
      && s'.tasks == s.tasks[id := Task(PENDING, None, 0, 1, deps, now)]
      && (forall t, d :: (t, d) in s'.edges <==> (t, d) in s.edges || (t == id && d in deps))
  {
    hide Acyclic;
  }

  /** A dependency is recorded once, in the row and in the table, or refused. */
  lemma DependExactly(s: Store, id: TaskId, d: TaskId)
    requires GraphInv(s)
    ensures AddDependency(s, id, d).Ok? <==>
      id in s.tasks && d in s.tasks && id != d && !Reachable(s.edges, d, id)
    ensures AddDependency(s, id, d).Ok? ==>
      var s', t := AddDependency(s, id, d).value, s.tasks[id];
      if d in t.dependencies then s' == s
      else
        && s'.edges == s.edges + {(id, d)}
        && s'.tasks == s.tasks[id := t.(dependencies := t.dependencies + [d], version := t.version + 1)]
  {
    hide Acyclic, Reachable;
  }
}
