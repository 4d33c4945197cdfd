/**
 * What holds of tasks over whole runs of the operations of `TaskService`
 * (shared/control-plane/src/task-service.ts). A refused operation is rolled back, so a run consists of the
 * operations that succeeded.
 */
module TaskRuns {
  import opened Bridge
  import opened TaskGraph
  import opened TaskService

  datatype Step =
    | CreateStep(id: TaskId, deps: seq<TaskId>, now: int)
    | ClaimStep(id: TaskId, agent: AgentId)
    | ReleaseStep(id: TaskId, agent: AgentId)
    | DependStep(id: TaskId, on: TaskId)
    | TransitionStep(id: TaskId, agent: AgentId, to: TaskState)
    | RecoverStep(id: TaskId, agent: AgentId, nextAttempt: nat, evidence: Evidence)
    | FinalizeStep(id: TaskId, agent: AgentId, to: TaskState)
    | BlockStep(id: TaskId, agent: AgentId)
    | UnblockStep(id: TaskId, agent: AgentId)
    | RetryStep(id: TaskId, maxAttempts: int)

  ghost function Next(s: Store, step: Step): Result<Store> {
    match step
    case CreateStep(id, deps, now) => Create(s, id, deps, now)
    case ClaimStep(id, agent) => Claim(s, id, agent)
    case ReleaseStep(id, agent) => Release(s, id, agent)
    case DependStep(id, on) => AddDependency(s, id, on)
    case TransitionStep(id, agent, to) => Transition(s, id, agent, to)
    case RecoverStep(id, agent, nextAttempt, evidence) => BeginRecovery(s, id, agent, nextAttempt, evidence)
    case FinalizeStep(id, agent, to) => Finalize(s, id, agent, to)
    case BlockStep(id, agent) => Block(s, id, agent)
    case UnblockStep(id, agent) => Unblock(s, id, agent)
    case RetryStep(id, maxAttempts) => Retry(s, id, maxAttempts)
  }

  /** A new task gets a fresh identifier. */
  ghost predicate Enabled(s: Store, step: Step) {
    step.CreateStep? ==> step.id !in s.tasks
  }

  ghost predicate Steps(s: Store, step: Step, s': Store) {
    Enabled(s, step) && Next(s, step) == Ok(s')
  }

  ghost predicate Run(states: seq<Store>, steps: seq<Step>) {
    && |states| == |steps| + 1
    && states[0] == Store(map[], {})
    && forall i :: 0 <= i < |steps| ==> Steps(states[i], steps[i], states[i + 1])
  }

  ghost predicate Reached(s: Store) {
    exists states: seq<Store>, steps: seq<Step> :: Run(states, steps) && states[|steps|] == s
  }

  lemma Start() returns (s: Store)
    ensures s == Store(map[], {}) && Reached(s)
  {
    s := Store(map[], {});
    var states, steps: seq<Step> := [s], [];
    assert Run(states, steps);
  }

  lemma Extend(s: Store, step: Step) returns (s': Store)
    requires Reached(s) && Enabled(s, step) && Next(s, step).Ok?
    ensures Steps(s, step, s') && Reached(s')
  {
    var states: seq<Store>, steps: seq<Step> :| Run(states, steps) && states[|steps|] == s;
    s' := Next(s, step).value;
    assert Steps(s, step, s');
    hide Steps;
    assert Run(states + [s'], steps + [step]);
  }

  // ---------------------------------------------------------------- the dependency graph

  /** The edge table says what the task rows say, between existing tasks and without a cycle. */
  ghost predicate GraphInv(s: Store) {
    && (forall t, d :: (t, d) in s.edges <==> t in s.tasks && d in s.tasks[t].dependencies)
    && (forall t, d :: (t, d) in s.edges ==> d in s.tasks)
    && Acyclic(s.edges)
  }

  ghost predicate SameGraph(s: Store, s': Store) {
    && s'.edges == s.edges
    && s'.tasks.Keys == s.tasks.Keys
    && forall t :: t in s.tasks ==> s'.tasks[t].dependencies == s.tasks[t].dependencies
  }

  lemma OtherStepsKeepGraph(s: Store, step: Step, s': Store)
    requires Steps(s, step, s') && !step.CreateStep? && !step.DependStep?
    ensures SameGraph(s, s')
  {
  }

  lemma DependKeepsGraph(s: Store, id: TaskId, on: TaskId, s': Store)
    requires GraphInv(s) && AddDependency(s, id, on) == Ok(s')
    ensures GraphInv(s')
  {
    NewEdgeCycle(s.edges, id, on);
    if on !in s.tasks[id].dependencies {
      assert s'.tasks[id].dependencies == s.tasks[id].dependencies + [on];
      forall t, d ensures (t, d) in s'.edges <==> t in s'.tasks && d in s'.tasks[t].dependencies {
        assert (t, d) in s'.edges <==> (t, d) in s.edges || (t, d) == (id, on);
      }
    }
  }

  lemma CreateKeepsGraph(s: Store, id: TaskId, deps: seq<TaskId>, now: int, s': Store)
    requires GraphInv(s) && id !in s.tasks && Create(s, id, deps, now) == Ok(s')
    ensures GraphInv(s')
  {
    FreshSourceKeepsAcyclic(s.edges, id, deps);
    assert s'.edges == s.edges + set d | d in deps :: (id, d);
    forall t, d ensures (t, d) in s'.edges <==> t in s'.tasks && d in s'.tasks[t].dependencies {
      assert (t, d) in s'.edges <==> (t, d) in s.edges || (t == id && d in deps);
    }
  }

  lemma StepKeepsGraph(s: Store, step: Step, s': Store)
    requires GraphInv(s) && Steps(s, step, s')
    ensures GraphInv(s')
  {
    if step.CreateStep? {
      CreateKeepsGraph(s, step.id, step.deps, step.now, s');
    } else if step.DependStep? {
      DependKeepsGraph(s, step.id, step.on, s');
    } else {
      OtherStepsKeepGraph(s, step, s');
      hide Next, Acyclic;
    }
  }

  /** In every reachable store the graph is acyclic and the edge table equals the dependencies of the rows. */
  lemma {:induction false} GraphOfEveryRun(states: seq<Store>, steps: seq<Step>, n: nat)
    requires Run(states, steps) && n < |states|
    ensures GraphInv(states[n])
  {
    hide Steps;
    if n > 0 {
      GraphOfEveryRun(states, steps, n - 1);
      assert Steps(states[n - 1], steps[n - 1], states[n - 1 + 1]);
      hide GraphInv;
      StepKeepsGraph(states[n - 1], steps[n - 1], states[n]);
    }
  }

  /** An edge is refused for a cycle exactly when it would close one. */
  lemma RefusedIffCyclic(s: Store, id: TaskId, on: TaskId)
    requires GraphInv(s) && id in s.tasks && on in s.tasks
    ensures AddDependency(s, id, on) == Err(DEPENDENCY_CYCLE) <==> !Acyclic(s.edges + {(id, on)})
  {
    NewEdgeCycle(s.edges, id, on);
    if id == on { ReachSelf(s.edges, id); }
  }

  // ---------------------------------------------------------------- ownership

  ghost predicate PendingIffUnowned(s: Store) {
    forall id :: id in s.tasks ==> PendingUnowned(s.tasks[id])
  }

  /** `transition`, or the submission path, asked to move a task to PENDING: it leaves the owner in place. */
  predicate MovesToPending(step: Step) {
    (step.TransitionStep? || step.FinalizeStep?) && step.to == PENDING
  }

  /** PENDING and unowned stay the same thing exactly when no step moves a task to PENDING without releasing it. */
  lemma OwnershipExact(s: Store, step: Step, s': Store)
    requires PendingIffUnowned(s) && Steps(s, step, s')
    ensures PendingIffUnowned(s') <==> !MovesToPending(step)
  {
    hide Steps;
    OneRowWritten(s, step, s');
    assert step.id in s'.tasks;
    OwnRowExact(s, step, s');
  }

  predicate PendingUnowned(t: Task) {
    t.state == PENDING <==> t.owner == None
  }

  lemma OneRowWritten(s: Store, step: Step, s': Store)
    requires Steps(s, step, s')
    ensures step.id in s'.tasks && s'.tasks.Keys == s.tasks.Keys + {step.id}
    ensures forall id :: id in s.tasks && id != step.id ==> s'.tasks[id] == s.tasks[id]
  {
  }

  lemma OwnRowExact(s: Store, step: Step, s': Store)
    requires Steps(s, step, s') && step.id in s'.tasks && (step.id in s.tasks ==> PendingUnowned(s.tasks[step.id]))
    ensures PendingUnowned(s'.tasks[step.id]) <==> !MovesToPending(step)
  {
  }

  lemma {:induction false} OwnershipOfEveryRun(states: seq<Store>, steps: seq<Step>, n: nat)
    requires Run(states, steps) && n < |states|
    requires forall i :: 0 <= i < |steps| ==> !MovesToPending(steps[i])
    ensures PendingIffUnowned(states[n])
  {
    if n > 0 {
      OwnershipOfEveryRun(states, steps, n - 1);
      assert Steps(states[n - 1], steps[n - 1], states[n - 1 + 1]);
      hide Steps, PendingIffUnowned;
      OwnershipExact(states[n - 1], steps[n - 1], states[n]);
    }
  }

  /** The table lets a PENDING task be cancelled; no operation can do it while PENDING tasks are unowned. */
  lemma PendingIsNeverCancelled(s: Store, step: Step, s': Store, id: TaskId)
    requires PendingIffUnowned(s) && Steps(s, step, s') && id in s.tasks && s.tasks[id].state == PENDING
    ensures s'.tasks[id].state == PENDING || (step == ClaimStep(id, step.agent) && s'.tasks[id].state == CLAIMED)
  {
    assert s.tasks[id].owner == None;
    hide PendingIffUnowned;
  }

  /** Moving a claimed task to PENDING keeps its owner, and the only task there is will never be ready. */
  lemma OwnedPendingExample()
    ensures exists s :: (Reached(s) && s.tasks.Keys == {"t"} && s.tasks["t"].state == PENDING
      && s.tasks["t"].owner == Some("a") && !IsReady(s, "t"))
  {
    var s0 := Start();
    var s1 := Extend(s0, CreateStep("t", [], 0));
    var s2 := Extend(s1, ClaimStep("t", "a"));
    var s3 := Extend(s2, TransitionStep("t", "a", PENDING));
  }

  // ---------------------------------------------------------------- the state machine over runs

  predicate RaisesAttempt(step: Step, id: TaskId) {
    step.id == id && (step.RetryStep? || step.RecoverStep?)
  }

  /** FAILED is left only by `retry`, or by a recovery with crash evidence. */
  predicate LeavesFailed(step: Step, to: TaskState) {
    (step.RetryStep? && to == PENDING) || (step.RecoverStep? && step.evidence.interrupted && to == WORKING)
  }

  /** A table edge, two table edges through VERIFYING, or a counted way out of FAILED. */
  predicate LegalMove(step: Step, t: Task, t': Task) {
    || t'.state == t.state
    || CanTransition(t.state, t'.state)
    || (step.FinalizeStep? && CanTransition(t.state, VERIFYING) && CanTransition(VERIFYING, t'.state)
      && t'.state == DONE)
    || (t.state == FAILED && LeavesFailed(step, t'.state) && t'.attempt == t.attempt + 1)
  }

  /** What one step may do to a row that exists. */
  ghost predicate LegalChange(step: Step, id: TaskId, t: Task, t': Task) {
    && LegalMove(step, t, t')
    && t'.attempt == t.attempt + (if RaisesAttempt(step, id) then 1 else 0)
    && (t' == t || t.version < t'.version)
    && t.dependencies <= t'.dependencies
    && t'.createdAt == t.createdAt
  }

  lemma StepIsLegal(s: Store, step: Step, s': Store, id: TaskId)
    requires Steps(s, step, s') && id in s.tasks
    ensures id in s'.tasks && LegalChange(step, id, s.tasks[id], s'.tasks[id])
  {
    hide Steps, LegalChange;
    OneRowWritten(s, step, s');
    if id == step.id {
      OwnRowLegal(s, step, s');
    } else {
      OtherRowLegal(step, id, s.tasks[id]);
    }
  }

  lemma OtherRowLegal(step: Step, id: TaskId, t: Task)
    requires id != step.id
    ensures LegalChange(step, id, t, t)
  {
  }

  lemma OwnRowLegal(s: Store, step: Step, s': Store)
    requires Steps(s, step, s') && step.id in s.tasks && step.id in s'.tasks
    ensures LegalChange(step, step.id, s.tasks[step.id], s'.tasks[step.id])
  {
    if step.FinalizeStep? { FinalizeLegal(s, step, s'); }
  }

  lemma FinalizeLegal(s: Store, step: Step, s': Store)
    requires Steps(s, step, s') && step.FinalizeStep? && step.id in s.tasks && step.id in s'.tasks
    ensures LegalChange(step, step.id, s.tasks[step.id], s'.tasks[step.id])
  {
  }

  /** No operation meets the version conflict of its own write: it read the row in the same transaction. */
  lemma NeverConflicts(s: Store, step: Step)
    requires Enabled(s, step)
    ensures Next(s, step) != Err(INTERNAL)
  {
  }

  /** Of two agents who claim an unowned task, the first has it: its claim may be repeated, the other's is refused. */
  lemma FirstClaimWins(s: Store, id: TaskId, a: AgentId, b: AgentId)
    requires Claim(s, id, a).Ok? && a != b
    ensures var s' := Claim(s, id, a).value;
      && s'.tasks[id].owner == Some(a)
      && (s.tasks[id].owner == None ==> s'.tasks[id].state == CLAIMED)
      && (s'.tasks[id].state != PENDING ==> Claim(s', id, a) == Ok(s'))
      && Claim(s', id, b) == Err(NOT_OWNER)
  {
  }

  /** A row as it was, two writes later. */
  function Rewritten(t: Task): Task {
    t.(version := t.version + 2)
  }

  /** Giving a task back undoes claiming it. */
  lemma ReleaseUndoesClaim(s: Store, id: TaskId, a: AgentId)
    requires id in s.tasks && s.tasks[id].state == PENDING && s.tasks[id].owner == None
    ensures Claim(s, id, a).Ok?
      && Release(Claim(s, id, a).value, id, a) == Ok(s.(tasks := s.tasks[id := Rewritten(s.tasks[id])]))
  {
    var s1 := Claim(s, id, a).value;
    assert s1.tasks[id := Rewritten(s.tasks[id])] == s.tasks[id := Rewritten(s.tasks[id])];
  }

  /** Unblocking undoes blocking for a task at work; from any other state it leaves the task at work without a gate. */
  lemma UnblockUndoesBlock(s: Store, id: TaskId, a: AgentId)
    ensures Block(s, id, a).Ok? <==>
      id in s.tasks && s.tasks[id].owner == Some(a) && s.tasks[id].state in {CLAIMED, WORKING, VERIFYING}
    ensures Block(s, id, a).Ok? ==>
      Unblock(Block(s, id, a).value, id, a)
        == Ok(s.(tasks := s.tasks[id := Rewritten(s.tasks[id]).(state := WORKING)]))
  {
    if Block(s, id, a).Ok? {
      var s1 := Block(s, id, a).value;
      var t := Rewritten(s.tasks[id]).(state := WORKING);
      assert s1.tasks[id := t] == s.tasks[id := t];
    }
  }

  function Raises(steps: seq<Step>, id: TaskId): nat {
    if steps == [] then 0
    else Raises(steps[..|steps| - 1], id) + if RaisesAttempt(steps[|steps| - 1], id) then 1 else 0
  }

  lemma NewRowsAndOldRows(s: Store, step: Step, s': Store, id: TaskId)
    requires Steps(s, step, s')
    ensures id in s.tasks ==> id in s'.tasks
    ensures id in s'.tasks && id !in s.tasks ==> step.CreateStep? && s'.tasks[id].attempt == 0
    ensures id !in s.tasks ==> !RaisesAttempt(step, id)
  {
  }

  /** The attempt counter of a task is the number of its retries and recoveries. */
  lemma {:induction false} AttemptCountsRaises(states: seq<Store>, steps: seq<Step>, n: nat, id: TaskId)
    requires Run(states, steps) && n < |states|
    ensures id in states[n].tasks ==> states[n].tasks[id].attempt == Raises(steps[..n], id)
    ensures id !in states[n].tasks ==> Raises(steps[..n], id) == 0
  {
    hide Next;
    if n > 0 {
      AttemptCountsRaises(states, steps, n - 1, id);
      assert Steps(states[n - 1], steps[n - 1], states[n - 1 + 1]);
      assert steps[..n][..n - 1] == steps[..n - 1];
      hide Steps;
      NewRowsAndOldRows(states[n - 1], steps[n - 1], states[n], id);
      if id in states[n - 1].tasks { StepIsLegal(states[n - 1], steps[n - 1], states[n], id); }
    }
  }

  predicate Retries(step: Step, id: TaskId) {
    step.RetryStep? && step.id == id
  }

  function RetryCount(steps: seq<Step>, id: TaskId): nat {
    if steps == [] then 0
    else RetryCount(steps[..|steps| - 1], id) + if Retries(steps[|steps| - 1], id) then 1 else 0
  }

  lemma {:induction false} RetriesRaise(steps: seq<Step>, id: TaskId)
    ensures RetryCount(steps, id) <= Raises(steps, id)
  {
    if steps != [] { RetriesRaise(steps[..|steps| - 1], id); }
  }

  /**
   * Retries are bounded: in a run whose retries never grant more than `max` attempts a task is retried fewer than `max`
   * times, however often it is recovered in between.
   */
  lemma {:induction false} RetriesAreBounded(states: seq<Store>, steps: seq<Step>, n: nat, id: TaskId, max: nat)
    requires Run(states, steps) && n < |states|
    requires forall i :: 0 <= i < |steps| && Retries(steps[i], id) ==> steps[i].maxAttempts <= max
    ensures RetryCount(steps[..n], id) == 0 || RetryCount(steps[..n], id) < max
  {
    hide Next, Steps;
    if n > 0 {
      RetriesAreBounded(states, steps, n - 1, id, max);
      AttemptCountsRaises(states, steps, n, id);
      RetriesRaise(steps[..n], id);
      assert steps[..n][..n - 1] == steps[..n - 1];
      if Retries(steps[n - 1], id) {
        assert Steps(states[n - 1], steps[n - 1], states[n - 1 + 1]);
        RetryWithinBudget(states[n - 1], steps[n - 1], states[n]);
      }
    }
  }

  lemma RetryWithinBudget(s: Store, step: Step, s': Store)
    requires Steps(s, step, s') && step.RetryStep?
    ensures step.id in s'.tasks && s'.tasks[step.id].attempt < step.maxAttempts
  {
  }

  /** Between two moments of a run: versions never fall, and an equal version means an unchanged row. */
  lemma {:induction false} VersionIdentifiesRow(states: seq<Store>, steps: seq<Step>, i: nat, j: nat, id: TaskId)
    requires Run(states, steps) && i <= j < |states| && id in states[i].tasks
    ensures id in states[j].tasks
    ensures var t, t' := states[i].tasks[id], states[j].tasks[id];
      (t' == t || t.version < t'.version) && t.attempt <= t'.attempt && t.dependencies <= t'.dependencies
    decreases j - i
  {
    hide Next, LegalMove;
    if i < j {
      VersionIdentifiesRow(states, steps, i, j - 1, id);
      assert Steps(states[j - 1], steps[j - 1], states[j - 1 + 1]);
      hide Steps;
      StepIsLegal(states[j - 1], steps[j - 1], states[j], id);
    }
  }

  /**
   * No lost update: a write computed from a row as it was at one moment of a run goes through at a later moment
   * exactly if nothing has written the row since. The operations, which read and write in one transaction, never meet
   * that refusal.
   */
  lemma NoLostUpdate(states: seq<Store>, steps: seq<Step>, i: nat, j: nat, id: TaskId, write: Task)
    requires Run(states, steps) && i <= j < |states| && id in states[i].tasks
    requires write.version == states[i].tasks[id].version + 1
    ensures id in states[j].tasks
    ensures UpdateTask(states[j], id, write).Ok? <==> states[j].tasks[id] == states[i].tasks[id]
    ensures UpdateTask(states[j], id, write).Err? ==> UpdateTask(states[j], id, write) == Err(INTERNAL)
    ensures forall step :: Enabled(states[j], step) ==> Next(states[j], step) != Err(INTERNAL)
  {
    hide Next, Run, Enabled;
    VersionIdentifiesRow(states, steps, i, j, id);
    forall step | Enabled(states[j], step) ensures Next(states[j], step) != Err(INTERNAL) {
      NeverConflicts(states[j], step);
    }
  }

  /** DONE and CANCELLED are never left. */
  lemma {:induction false} FinalForEver(states: seq<Store>, steps: seq<Step>, i: nat, j: nat, id: TaskId)
    requires Run(states, steps) && i <= j < |states| && id in states[i].tasks
    requires states[i].tasks[id].state in {DONE, CANCELLED}
    ensures id in states[j].tasks && states[j].tasks[id].state == states[i].tasks[id].state
    decreases j - i
  {
    hide Next;
    if i < j {
      FinalForEver(states, steps, i, j - 1, id);
      assert Steps(states[j - 1], steps[j - 1], states[j - 1 + 1]);
      hide Steps;
      StepIsLegal(states[j - 1], steps[j - 1], states[j], id);
    }
  }

  /** A task is in WORKING and its row has just been written. */
  ghost predicate StartsWork(s: Store, step: Step, s': Store)
    requires step.id in s'.tasks
  {
    step.id in s.tasks && s'.tasks != s.tasks && s'.tasks[step.id].state == WORKING && !step.DependStep?
  }

  /** Work starts with every dependency DONE, unless `unblock` starts it: that skips the gate. */
  lemma GateAtStart(s: Store, step: Step, s': Store)
    requires Steps(s, step, s') && step.id in s'.tasks && StartsWork(s, step, s')
    ensures (step.TransitionStep? && step.to == WORKING) || step.RecoverStep? || step.UnblockStep?
      || (step.FinalizeStep? && step.to == WORKING)
    ensures step.TransitionStep? || step.RecoverStep? ==> DependenciesDone(s, step.id)
  {
  }

  /** Dependencies that were DONE when work started through the gate are DONE ever after. */
  lemma GatedWorkKeepsDependencies(states: seq<Store>, steps: seq<Step>, i: nat, j: nat, d: TaskId)
    requires Run(states, steps) && i < j < |states|
    requires steps[i].id in states[i + 1].tasks && StartsWork(states[i], steps[i], states[i + 1])
    requires steps[i].TransitionStep? || steps[i].RecoverStep?
    requires d in states[i].tasks[steps[i].id].dependencies
    ensures IsDone(states[i], d) && IsDone(states[j], d)
  {
    hide Next;
    assert Steps(states[i], steps[i], states[i + 1]);
    GraphOfEveryRun(states, steps, i);
    GateAtStart(states[i], steps[i], states[i + 1]);
    assert (steps[i].id, d) in states[i].edges;
    FinalForEver(states, steps, i, j, d);
  }

  /** `unblock` does skip it: a task can be DONE while a dependency is still PENDING. */
  lemma UnblockSkipsGateExample()
    ensures exists s :: (Reached(s) && s.tasks.Keys == {"t", "d"} && s.tasks["t"].state == DONE
      && s.tasks["t"].dependencies == ["d"] && s.tasks["d"].state == PENDING)
  {
    var s0 := Start();
    var s1 := Extend(s0, CreateStep("d", [], 0));
    var s2 := Extend(s1, CreateStep("t", ["d"], 0));
    var s3 := Extend(s2, ClaimStep("t", "a"));
    var s4 := Extend(s3, BlockStep("t", "a"));
    var s5 := Extend(s4, UnblockStep("t", "a"));
    var s6 := Extend(s5, FinalizeStep("t", "a", DONE));
  }
}
