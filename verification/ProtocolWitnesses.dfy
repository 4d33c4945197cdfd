/**
 * Runs, from the initial state, that show what the control plane does outside its hypotheses
 * (shared/control-plane/src/orchestrator.ts, shared/control-plane/src/delegation-operation.ts:45-60).
 */
module ProtocolWitnesses {
  import opened Bridge
  import opened Scope
  import opened WriteScopes
  import opened ControlStore
  import opened Protocol
  import opened ProtocolRows
  import opened ProtocolInvariant
  import opened ProtocolSafety
  import opened ProtocolTheorems
  import opened ProtocolBound
  import Globs
  import LM = LeaseManager
  import ES = ExecutionService

  ghost predicate Reached(c: System) {
    exists states: seq<System>, steps: seq<Step> :: Run(states, steps) && states[|steps|] == c
  }

  lemma ReachedInv(c: System)
    requires Reached(c)
    ensures Inv(c)
  {
    hide Inv, Next;
    var states: seq<System>, steps: seq<Step> :| Run(states, steps) && states[|steps|] == c;
    RunKeepsInv(states, steps, |steps|);
  }

  lemma Extend(c: System, step: Step, c': System)
    requires Reached(c) && Next(c, step) == Ok(c')
    ensures Reached(c')
  {
    hide Next;
    var states: seq<System>, steps: seq<Step> :| Run(states, steps) && states[|steps|] == c;
    assert Run(states + [c'], steps + [step]);
  }

  const SCOPE: seq<string> := ["a"]

  lemma ScopeA()
    ensures Stored(SCOPE) && Conflict(SCOPE, SCOPE)
  {
    NormalA();
    assert Globs.PatternsOverlap(SCOPE[0], SCOPE[0]);
    assert SomeOverlap(SCOPE, SCOPE);
    assert IsReadOnlyScope(SCOPE) == Ok(false);
    ConflictMeaning(SCOPE, SCOPE);
  }

  // ---------------------------------------------------------------- the first attempt

  type Executions = map<TaskId, Execution>
  type Leases = map<LeaseId, Lease>
  type Stages = map<Generation, Stage>

  function Sys(dead: set<Pid>, executions: Executions, leases: Leases, stages: Stages, now: int): System {
    System(Store(leases, executions, map[]), now, dead, stages)
  }

  /** A first execution of the one agent, which allows one slot. */
  function Row(g: Generation, pid: Pid, phase: Phase, ticket: int, confirmed: bool, lease: Option<LeaseId>): Execution {
    Execution(0, "w", g, phase, pid, 1, ticket, confirmed, lease, false)
  }

  function ALease(state: LeaseState): Lease {
    Lease("t", "w", SCOPE, state, 0, 10)
  }

  lemma NoTicket()
    ensures ES.MaxTicket(map[]) == 0
  {
  }

  lemma OneTicket(t: TaskId, e: Execution)
    requires e.ticket >= 1
    ensures ES.MaxTicket(map[t := e]) == e.ticket
  {
    var m := ES.MaxTicket(map[t := e]);
    assert t in map[t := e];
  }

  lemma Begins()
    ensures Reached(Sys({}, map[], map[], map[], 0))
  {
    var c := Sys({}, map[], map[], map[], 0);
    var states, steps: seq<Step> := [c], [];
    assert Run(states, steps);
  }

  lemma Enqueued(c: System, t: TaskId, g: Generation, pid: Pid, ticket: int, c': System)
    requires g !in c.stages && t !in c.store.executions && ES.MaxTicket(c.store.executions) == ticket - 1
    requires forall u :: u in c.store.executions ==> c.store.executions[u].phase != QUEUED
    requires c' == c.(store := PutExecution(c.store, t, Row(g, pid, QUEUED, ticket, true, None)),
      stages := c.stages[g := Preparing])
    ensures Next(c, Enqueue(t, 0, "w", 1, g, pid)) == Ok(c')
  {
    assert ES.QueuedOf(c.store, "w") == {};
  }

  /** An executor whose agent has no other unstopped execution is admitted, and nothing else changes. */
  lemma AdmitsTheOnly(c: System, t: TaskId)
    requires At(c, t, {Preparing}) && c.store.executions[t].phase == QUEUED && !c.store.executions[t].cancelled
    requires c.store.executions[t].maxConcurrency >= 1
    requires forall u :: u in c.store.executions && u != t ==> c.store.executions[u].phase == STOPPED
    ensures Next(c, Admit(t)) == Ok(c.(store := PutExecution(c.store, t, c.store.executions[t].(phase := RUNNING))))
  {
    var s, e := c.store, c.store.executions[t];
    var r := ES.Reconcile(s, Some(e.agent), c.dead);
    assert r.executions == s.executions;
    assert r.leases == s.leases by {
      assert forall id :: id in s.leases ==> ES.ReconciledLease(s, id, Some(e.agent), c.dead) == s.leases[id];
    }
    assert r == s;
    assert ES.Occupied(s, e.agent) == {};
    assert ES.Head(s, t, e.agent);
    assert c.stages[e.generation := c.stages[e.generation]] == c.stages;
  }

  const WAITING: Executions := map["t" := Row("g", 1, QUEUED, 1, true, None)]
  const ADMITTED: Executions := map["t" := Row("g", 1, RUNNING, 1, true, None)]
  const LAUNCHED: Executions := map["t" := Row("g", 1, RUNNING, 1, false, Some("l"))]
  const CONFIRMED: Executions := map["t" := Row("g", 1, RUNNING, 1, true, Some("l"))]
  const ENDED: Executions := map["t" := Row("g", 1, STOPPED, 1, true, Some("l"))]

  /** The one lease of the first attempt. */
  function L(state: LeaseState): Leases {
    map["l" := ALease(state)]
  }

  function G(stage: Stage): Stages {
    map["g" := stage]
  }

  lemma Launches()
    ensures Next(Sys({}, ADMITTED, map[], G(Preparing), 0), Launch("t", "l", SCOPE, 10, 0))
      == Ok(Sys({}, LAUNCHED, L(HELD), G(Launched), 0))
  {
    ScopeA();
    hide Conflict, Stored;
    var c := Sys({}, ADMITTED, map[], G(Preparing), 0);
    assert LM.FindConflicts(c.store, SCOPE, "w", Some("t"), 0) == {};
    assert ADMITTED["t" := Row("g", 1, RUNNING, 1, false, Some("l"))] == LAUNCHED;
    assert c.store.leases["l" := ALease(HELD)] == L(HELD);
    assert G(Preparing)["g" := Launched] == G(Launched);
  }

  /** The first task is queued, admitted and launched by process 1. */
  lemma LaunchedRun()
    ensures Reached(Sys({}, LAUNCHED, L(HELD), G(Launched), 0))
  {
    hide Next;
    var c0, c1 := Sys({}, map[], map[], map[], 0), Sys({}, WAITING, map[], G(Preparing), 0);
    var c2 := Sys({}, ADMITTED, map[], G(Preparing), 0);
    Begins();
    NoTicket();
    Enqueued(c0, "t", "g", 1, 1, c1);
    AdmitsTheOnly(c1, "t");
    assert WAITING["t" := Row("g", 1, RUNNING, 1, true, None)] == ADMITTED;
    Launches();
    Extend(c0, Enqueue("t", 0, "w", 1, "g", 1), c1);
    Extend(c1, Admit("t"), c2);
    Extend(c2, Launch("t", "l", SCOPE, 10, 0), Sys({}, LAUNCHED, L(HELD), G(Launched), 0));
  }

  lemma Stops(leases: Leases, now: int)
    ensures Next(Sys({}, LAUNCHED, leases, G(Launched), now), ReportStopped("t"))
      == Ok(Sys({}, CONFIRMED, leases, G(Launched), now))
  {
    assert LAUNCHED["t" := Row("g", 1, RUNNING, 1, true, Some("l"))] == CONFIRMED;
  }

  lemma Decides(leases: Leases, now: int)
    ensures Next(Sys({}, CONFIRMED, leases, G(Launched), now), Decide("t", true))
      == Ok(Sys({}, CONFIRMED, leases, G(Decided(true)), now))
  {
    assert CONFIRMED["t" := Row("g", 1, RUNNING, 1, true, Some("l"))] == CONFIRMED;
    assert G(Launched)["g" := Decided(true)] == G(Decided(true));
  }

  lemma Ticks(dead: set<Pid>, executions: Executions, leases: Leases, stages: Stages)
    ensures Next(Sys(dead, executions, leases, stages, 0), Tick(20)) == Ok(Sys(dead, executions, leases, stages, 20))
  {
  }

  // ---------------------------------------------------------------- evidence that is taken back

  lemma ReapExpires()
    ensures Next(Sys({}, CONFIRMED, L(HELD), G(Launched), 20), Reap) ==
      Ok(Sys({}, CONFIRMED, L(EXPIRED), G(Launched), 20))
  {
    assert LM.ReapExpired(Sys({}, CONFIRMED, L(HELD), G(Launched), 20).store, 20).leases == L(EXPIRED);
  }

  /**
   * Stop evidence must not be taken back: after a confirmed stop a reap lets the lease expire, and a row that then lost
   * its evidence would run without a fence.
   */
  lemma RetractedEvidenceRun()
    ensures exists c :: (Reached(c) && At(c, "t", {Launched}) && c.store.executions["t"].phase == RUNNING
      && FenceKept(c.store) && !FenceKept(WithoutEvidence(c.store, "t")))
  {
    hide Next, Reached, Rows;
    var c0, c1 := Sys({}, LAUNCHED, L(HELD), G(Launched), 0), Sys({}, CONFIRMED, L(HELD), G(Launched), 0);
    var c2, c3 := Sys({}, CONFIRMED, L(HELD), G(Launched), 20), Sys({}, CONFIRMED, L(EXPIRED), G(Launched), 20);
    LaunchedRun();
    Stops(L(HELD), 0);
    Ticks({}, CONFIRMED, L(HELD), G(Launched));
    ReapExpires();
    Extend(c0, ReportStopped("t"), c1);
    Extend(c1, Tick(20), c2);
    Extend(c2, Reap, c3);
    ReachedInv(c3);
    EvidenceLossKeepsFence(c3.store, "t");
  }

  // ---------------------------------------------------------------- a commit that cannot succeed

  lemma ReapQuarantines()
    ensures Next(Sys({}, LAUNCHED, L(HELD), G(Launched), 20), Reap)
      == Ok(Sys({}, LAUNCHED, L(LeaseState.QUARANTINED), G(Launched), 20))
  {
    var c := Sys({}, LAUNCHED, L(HELD), G(Launched), 20);
    assert Fenced(c.store, "l");
    assert LM.ReapExpired(c.store, 20).leases == L(LeaseState.QUARANTINED);
  }

  lemma CommitFails()
    ensures Next(Sys({}, CONFIRMED, L(LeaseState.QUARANTINED), G(Decided(true)), 20), Commit("t"))
      == Ok(Sys({}, CONFIRMED, L(LeaseState.QUARANTINED), G(Finished), 20))
  {
    var c := Sys({}, CONFIRMED, L(LeaseState.QUARANTINED), G(Decided(true)), 20);
    assert CommitTx(c.store, "t", true).Err?;
    assert G(Decided(true))["g" := Finished] == G(Finished);
  }

  /** A finished executor is alive; its row is RUNNING with stop evidence, and its lease is no longer held. */
  ghost predicate Stuck(c: System, t: TaskId, g: Generation, pid: Pid) {
    && At(c, t, {Finished}) && c.store.executions[t].generation == g && c.store.executions[t].pid == pid
    && c.store.executions[t].phase == RUNNING && c.store.executions[t].stopConfirmed
    && NamesUnheld(c.store, c.store.executions[t])
  }

  ghost predicate NamesUnheld(s: Store, e: Execution) {
    e.lease.Some? && e.lease.value in s.leases && s.leases[e.lease.value].state != HELD
  }

  /**
   * A lease that times out is quarantined by a reap while the stop is unconfirmed. When the stop is confirmed
   * afterwards, the commit throws, and its living executor has nothing more to do.
   */
  lemma CommitGetsStuck()
    ensures exists c :: Reached(c) && Stuck(c, "t", "g", 1)
  {
    hide Next, Reached;
    var c0, c1 := Sys({}, LAUNCHED, L(HELD), G(Launched), 0), Sys({}, LAUNCHED, L(HELD), G(Launched), 20);
    var leases := L(LeaseState.QUARANTINED);
    var c2, c3 := Sys({}, LAUNCHED, leases, G(Launched), 20), Sys({}, CONFIRMED, leases, G(Launched), 20);
    var c4, c5 := Sys({}, CONFIRMED, leases, G(Decided(true)), 20), Sys({}, CONFIRMED, leases, G(Finished), 20);
    LaunchedRun();
    Ticks({}, LAUNCHED, L(HELD), G(Launched));
    ReapQuarantines();
    Stops(leases, 20);
    Decides(leases, 20);
    CommitFails();
    Extend(c0, Tick(20), c1);
    Extend(c1, Reap, c2);
    Extend(c2, ReportStopped("t"), c3);
    Extend(c3, Decide("t", true), c4);
    Extend(c4, Commit("t"), c5);
    assert Stuck(c5, "t", "g", 1);
  }

  /** The only step of others that ends it: the takeover of a reservation that was never authorised. */
  predicate FreesStuck(step: Step, t: TaskId) {
    step.TakeOver? && step.t == t && !step.authorized
  }

  lemma RowStaysStuck(c: System, step: Step, e: Execution, e': Execution)
    requires ChangesRow(step) && RowBecomes(c, step, e, e') && !FreesStuck(step, step.t)
    requires At(c, step.t, {Finished}) && e.phase == RUNNING && e.stopConfirmed && NamesUnheld(c.store, e)
    ensures e'.phase == RUNNING && e'.stopConfirmed && StageOf(step).None? && e'.lease == e.lease
  {
  }

  lemma OneRowStaysStuck(c: System, step: Step, c': System, t: TaskId, g: Generation, pid: Pid)
    requires Inv(c) && Stuck(c, t, g, pid) && Next(c, step) == Ok(c') && ChangesRow(step) && !FreesStuck(step, t)
    requires NoNewHeld(c.store, c'.store)
    ensures Stuck(c', t, g, pid)
  {
    hide Next, Inv, RowBecomes;
    StepWritesOneRow(c, step, c');
    if step.t == t {
      RowStaysStuck(c, step, c.store.executions[t], c'.store.executions[t]);
      RowKeepsIdentity(c, step, c.store.executions[t], c'.store.executions[t]);
    } else if step.t in c.store.executions {
      OtherGeneration(c, t, step.t);
    }
  }

  lemma OtherGeneration(c: System, t: TaskId, u: TaskId)
    requires Inv(c) && t in c.store.executions && u in c.store.executions && t != u
    ensures c.store.executions[t].generation != c.store.executions[u].generation
  {
  }

  lemma AdmitStaysStuck(c: System, u: TaskId, c': System, t: TaskId, g: Generation, pid: Pid)
    requires Stuck(c, t, g, pid) && Next(c, Admit(u)) == Ok(c') && NoNewHeld(c.store, c'.store)
    ensures Stuck(c', t, g, pid)
  {
    hide Next, ES.Reconcile, ES.SlotFree;
    StepAdmits(c, u, c');
    ReconcileKeepsLiving(c.store, Some(c.store.executions[u].agent), c.dead, t);
  }

  lemma StepStaysStuck(c: System, step: Step, c': System, t: TaskId, g: Generation, pid: Pid)
    requires Inv(c) && Stuck(c, t, g, pid) && Next(c, step) == Ok(c') && !FreesStuck(step, t) && pid !in c'.dead
    ensures Stuck(c', t, g, pid)
  {
    hide Next, Inv, FreesStuck, ES.Reconcile;
    StepKeepsInv(c, step, c');
    if ChangesRow(step) {
      OneRowStaysStuck(c, step, c', t, g, pid);
    } else if step.Admit? {
      AdmitStaysStuck(c, step.t, c', t, g, pid);
    } else if step.Reconcile? {
      StepReconciles(c, step.agent, c');
      ReconcileKeepsLiving(c.store, step.agent, c.dead, t);
    } else if step.Enqueue? || step.PrepareRecovery? {
      StepQueuesRow(c, step, c');
    } else {
      StepKeepsRows(c, step, c');
    }
  }

  /** A process reported dead stays dead. */
  lemma DeadStay(c: System, step: Step, c': System)
    requires Next(c, step) == Ok(c')
    ensures c.dead <= c'.dead
  {
    hide Next, RowBecomes, OtherRowsStay, ES.Reconcile, ES.Head, ES.SlotFree;
    if ChangesRow(step) {
      StepWritesOneRow(c, step, c');
    } else if step.Admit? {
      StepAdmits(c, step.t, c');
    } else if step.Reconcile? {
      StepReconciles(c, step.agent, c');
    } else if step.Enqueue? || step.PrepareRecovery? {
      StepQueuesRow(c, step, c');
    } else {
      StepKeepsRows(c, step, c');
    }
  }

  /**
   * From then on, in every continuation in which that executor lives and nobody takes its reservation over as never
   * authorised, the row is RUNNING and keeps its slot.
   */
  lemma {:induction false} StuckForGood(states: seq<System>, steps: seq<Step>, i: nat, j: nat, t: TaskId, g: Generation,
      pid: Pid)
    requires Run(states, steps) && i <= j < |states| && Stuck(states[i], t, g, pid) && pid !in states[j].dead
    requires forall k :: i <= k < j ==> !FreesStuck(steps[k], t)
    ensures Stuck(states[j], t, g, pid) && t in ES.Occupied(states[j].store, states[j].store.executions[t].agent)
  {
    hide Next, Inv, FreesStuck, NamesUnheld;
    if i < j {
      assert Next(states[j - 1], steps[j - 1]) == Ok(states[j - 1 + 1]);
      DeadStay(states[j - 1], steps[j - 1], states[j]);
      hide Stuck;
      StuckForGood(states, steps, i, j - 1, t, g, pid);
      RunKeepsInv(states, steps, j - 1);
      StepStaysStuck(states[j - 1], steps[j - 1], states[j], t, g, pid);
    }
  }

  // ---------------------------------------------------------------- a recovery by another process

  const RECOVERING: Stages := map["g" := Finished, "h" := Preparing]
  const RECOVERED: Stages := map["g" := Finished, "h" := Launched]

  /** The row of the recovery, which process 2 runs. */
  function Recovery(phase: Phase, confirmed: bool): Executions {
    map["t" := Execution(1, "w", "h", phase, 2, 1, 2, confirmed, Some("m"), false)]
  }

  /** The released lease of the first attempt, and the one of the recovery. */
  function Pair(state: LeaseState): Leases {
    map["l" := ALease(RELEASED), "m" := ALease(state)]
  }

  lemma Commits()
    ensures Next(Sys({}, CONFIRMED, L(HELD), G(Decided(true)), 0), Commit("t")) ==
      Ok(Sys({}, ENDED, L(RELEASED), G(Finished), 0))
  {
    assert CONFIRMED["t" := Row("g", 1, STOPPED, 1, true, Some("l"))] == ENDED;
    assert L(HELD)["l" := ALease(RELEASED)] == L(RELEASED);
    assert G(Decided(true))["g" := Finished] == G(Finished);
  }

  lemma QueuesRecovery(s: Store, queued: Execution)
    requires s == Store(L(RELEASED), ENDED, map[])
      && queued == Execution(1, "w", "h", QUEUED, 2, 1, 2, true, None, false)
    ensures ES.Queue(s, "t", 1, "w", 1, "h", 2) == Ok(PutExecution(s, "t", queued))
  {
    OneTicket("t", ENDED["t"]);
    assert ES.QueuedOf(s, "w") == {};
  }

  lemma Prepares()
    ensures Next(Sys({1}, ENDED, L(RELEASED), G(Finished), 0), PrepareRecovery("t", 1, "w", 1, "h", 2, "m", SCOPE, 10))
      == Ok(Sys({1}, Recovery(QUEUED, true), Pair(HELD), RECOVERING, 0))
  {
    hide Conflict, Stored, ES.Queue;
    ScopeA();
    var s := Sys({1}, ENDED, L(RELEASED), G(Finished), 0).store;
    var queued := Execution(1, "w", "h", QUEUED, 2, 1, 2, true, None, false);
    QueuesRecovery(s, queued);
    var s1 := PutExecution(s, "t", queued);
    assert !RecoveryRefused(s, "t", SCOPE, 0);
    assert LM.FindConflicts(s1, SCOPE, "w", Some("t"), 0) == {};
    assert s1.executions["t" := queued.(lease := Some("m"))] == Recovery(QUEUED, true);
    assert L(RELEASED)["m" := ALease(HELD)] == Pair(HELD);
    assert G(Finished)["h" := Preparing] == RECOVERING;
  }

  /**
   * A first attempt is committed and its process dies; a recovery by another process reserves a lease and is admitted.
   */
  lemma RecoveryRun()
    ensures Reached(Sys({1}, Recovery(RUNNING, true), Pair(HELD), RECOVERING, 0))
  {
    hide Next;
    var c0, c1 := Sys({}, LAUNCHED, L(HELD), G(Launched), 0), Sys({}, CONFIRMED, L(HELD), G(Launched), 0);
    var c2, c3 := Sys({}, CONFIRMED, L(HELD), G(Decided(true)), 0), Sys({}, ENDED, L(RELEASED), G(Finished), 0);
    var c4, c5 := Sys({1}, ENDED, L(RELEASED), G(Finished), 0),
      Sys({1}, Recovery(QUEUED, true), Pair(HELD), RECOVERING, 0);
    LaunchedRun();
    Stops(L(HELD), 0);
    Decides(L(HELD), 0);
    Commits();
    Crashes(c3);
    Prepares();
    AdmitsTheOnly(c5, "t");
    assert c5.store.executions["t" := c5.store.executions["t"].(phase := RUNNING)] == Recovery(RUNNING, true);
    Extend(c0, ReportStopped("t"), c1);
    Extend(c1, Decide("t", true), c2);
    Extend(c2, Commit("t"), c3);
    Extend(c3, Crash(1), c4);
    Extend(c4, PrepareRecovery("t", 1, "w", 1, "h", 2, "m", SCOPE, 10), c5);
    Extend(c5, Admit("t"), Sys({1}, Recovery(RUNNING, true), Pair(HELD), RECOVERING, 0));
  }

  lemma Crashes(c: System)
    requires c.dead == {}
    ensures Next(c, Crash(1)) == Ok(c.(dead := {1}))
  {
    assert {} + {1} == {1};
  }

  // ---------------------------------------------------------------- a takeover from a living process

  lemma LaunchesRecovery()
    ensures Next(Sys({1}, Recovery(RUNNING, true), Pair(HELD), RECOVERING, 0), LaunchRecovery("t"))
      == Ok(Sys({1}, Recovery(RUNNING, false), Pair(HELD), RECOVERED, 0))
  {
    var r := Recovery(RUNNING, true);
    assert r["t" := r["t"].(stopConfirmed := false)] == Recovery(RUNNING, false);
    assert RECOVERING["h" := Launched] == RECOVERED;
  }

  /** The reservation that the dead process made is authorised; the takeover meets the execution of process 2. */
  lemma TakesOver()
    ensures Next(Sys({1}, Recovery(RUNNING, false), Pair(HELD), RECOVERED, 0), TakeOver("t", 1, true))
      == Ok(Sys({1}, Recovery(Phase.QUARANTINED, false), Pair(LeaseState.QUARANTINED), RECOVERED, 0))
  {
    var r := Recovery(RUNNING, false);
    assert r["t" := r["t"].(phase := Phase.QUARANTINED)] == Recovery(Phase.QUARANTINED, false);
    assert Pair(HELD)["m" := ALease(LeaseState.QUARANTINED)] == Pair(LeaseState.QUARANTINED);
  }

  lemma StopsDisturbed()
    ensures Next(Sys({1}, Recovery(Phase.QUARANTINED, false), Pair(LeaseState.QUARANTINED), RECOVERED, 0),
      ReportStopped("t"))
      == Ok(Sys({1}, Recovery(STOPPED, true), Pair(RELEASED), RECOVERED, 0))
  {
    var r, leases := Recovery(Phase.QUARANTINED, false), Pair(LeaseState.QUARANTINED);
    assert r["t" := r["t"].(phase := STOPPED, stopConfirmed := true)] == Recovery(STOPPED, true);
    assert leases["m" := ALease(HELD)]["m" := ALease(RELEASED)] == Pair(RELEASED);
  }

  const TAKEN: Executions := Recovery(STOPPED, true)["u" := Row("i", 3, RUNNING, 3, true, None)]
  const TAKEN_STAGES: Stages := RECOVERED["i" := Preparing]

  lemma SlotIsTaken()
    ensures Reached(Sys({1}, Recovery(STOPPED, true), Pair(RELEASED), RECOVERED, 0)) ==>
      Reached(Sys({1}, TAKEN, Pair(RELEASED), TAKEN_STAGES, 0))
  {
    hide Next, Reached;
    var c := Sys({1}, Recovery(STOPPED, true), Pair(RELEASED), RECOVERED, 0);
    var c1 := Sys({1}, c.store.executions["u" := Row("i", 3, QUEUED, 3, true, None)], Pair(RELEASED), TAKEN_STAGES, 0);
    OneTicket("t", c.store.executions["t"]);
    Enqueued(c, "u", "i", 3, 3, c1);
    AdmitsTheOnly(c1, "u");
    assert c1.store.executions["u" := Row("i", 3, RUNNING, 3, true, None)] == TAKEN;
    if Reached(c) {
      Extend(c, Enqueue("u", 0, "w", 1, "i", 3), c1);
      Extend(c1, Admit("u"), Sys({1}, TAKEN, Pair(RELEASED), TAKEN_STAGES, 0));
    }
  }

  /** The slot of the disturbed recovery is taken by another task. */
  lemma TakenRun()
    ensures Reached(Sys({1}, TAKEN, Pair(RELEASED), TAKEN_STAGES, 0))
  {
    hide Next, Reached;
    var c0 := Sys({1}, Recovery(RUNNING, true), Pair(HELD), RECOVERING, 0);
    var c1 := Sys({1}, Recovery(RUNNING, false), Pair(HELD), RECOVERED, 0);
    var c2 := Sys({1}, Recovery(Phase.QUARANTINED, false), Pair(LeaseState.QUARANTINED), RECOVERED, 0);
    var c3 := Sys({1}, Recovery(STOPPED, true), Pair(RELEASED), RECOVERED, 0);
    RecoveryRun();
    LaunchesRecovery();
    TakesOver();
    StopsDisturbed();
    Extend(c0, LaunchRecovery("t"), c1);
    Extend(c1, TakeOver("t", 1, true), c2);
    Extend(c2, ReportStopped("t"), c3);
    SlotIsTaken();
  }

  lemma TakenOverfills()
    ensures ES.Occupied(Sys({1}, TAKEN, Pair(RELEASED), TAKEN_STAGES, 0).store, "w") == {"u"}
    ensures BoundKept(Sys({1}, TAKEN, Pair(RELEASED), TAKEN_STAGES, 0).store)
    ensures OverfillingStep(Sys({1}, TAKEN, Pair(RELEASED), TAKEN_STAGES, 0), Decide("t", true))
  {
    var s := Sys({1}, TAKEN, Pair(RELEASED), TAKEN_STAGES, 0).store;
    assert ES.Occupied(s, "w") == {"u"};
  }

  /**
   * The bound can break: a process dies after its attempt, another one recovers the task, a third retries the
   * delegation, finds the reserving process dead and quarantines the recovery that runs; its late stop report stops
   * the row, another task takes the only slot, and the stop decision of the recovery takes it again.
   */
  lemma BoundBreaks()
    ensures exists c, c' :: (Reached(c) && BoundKept(c.store) && OverfillingStep(c, Decide("t", true))
      && Next(c, Decide("t", true)) == Ok(c') && Reached(c') && !BoundKept(c'.store))
  {
    var c := Sys({1}, TAKEN, Pair(RELEASED), TAKEN_STAGES, 0);
    var c' := Next(c, Decide("t", true)).value;
    hide Next, Inv, BoundKept, OverfillingStep, Reached;
    TakenRun();
    TakenOverfills();
    ReachedInv(c);
    Extend(c, Decide("t", true), c');
    StepKeepsBoundExactly(c, Decide("t", true), c');
  }

  // ---------------------------------------------------------------- reservations that are gone at launch

  lemma ReleasesReservation()
    ensures Next(Sys({1}, Recovery(RUNNING, true), Pair(HELD), RECOVERING, 0), ToolRelease("m", "w"))
      == Ok(Sys({1}, Recovery(RUNNING, true), Pair(RELEASED), RECOVERING, 0))
  {
    assert Pair(HELD)["m" := ALease(RELEASED)] == Pair(RELEASED);
  }

  /** Releasing the reserved lease before the recovery launches leaves a running execution without a fence. */
  lemma ReleasedReservationRun()
    ensures exists c, c' :: (Reached(c) && Next(c, ToolRelease("m", "w")) == Ok(c') && Reached(c')
      && At(c', "t", {Preparing})
      && c'.store.executions["t"].phase == RUNNING && LaunchRecoveryTx(c'.store, "t").Ok?
      && !FenceKept(LaunchRecoveryTx(c'.store, "t").value))
  {
    hide Next, Inv, Reached, FenceKept, LaunchRecoveryTx;
    var c := Sys({1}, Recovery(RUNNING, true), Pair(HELD), RECOVERING, 0);
    RecoveryRun();
    ReachedInv(c);
    ReleasedReservationUnfenced(c, "t");
    ReleasesReservation();
    Extend(c, ToolRelease("m", "w"), Sys({1}, Recovery(RUNNING, true), Pair(RELEASED), RECOVERING, 0));
  }

  const EXPIRED_STATE: System :=
    Sys({1}, Recovery(RUNNING, true), Pair(HELD)["n" := Lease("u", "v", SCOPE, HELD, 20, 30)], RECOVERING, 20)

  lemma SomebodyElse()
    ensures Next(Sys({1}, Recovery(RUNNING, true), Pair(HELD), RECOVERING, 20),
      ToolAcquire("n", "u", "v", SCOPE, 10, 20))
      == Ok(EXPIRED_STATE)
  {
    hide Conflict, Stored;
    ScopeA();
    var c := Sys({1}, Recovery(RUNNING, true), Pair(HELD), RECOVERING, 20);
    assert LM.FindConflicts(c.store, SCOPE, "v", Some("u"), 20) == {};
  }

  lemma ExpiredRun()
    ensures Reached(EXPIRED_STATE)
  {
    hide Next, Reached;
    var c := Sys({1}, Recovery(RUNNING, true), Pair(HELD), RECOVERING, 20);
    RecoveryRun();
    Ticks({1}, Recovery(RUNNING, true), Pair(HELD), RECOVERING);
    SomebodyElse();
    Extend(Sys({1}, Recovery(RUNNING, true), Pair(HELD), RECOVERING, 0), Tick(20), c);
    Extend(c, ToolAcquire("n", "u", "v", SCOPE, 10, 20), EXPIRED_STATE);
  }

  /** Launching under a reservation that has timed out, after somebody else took the scope, breaks write exclusion. */
  lemma ExpiredReservationRun()
    ensures exists c :: (Reached(c) && At(c, "t", {Preparing}) && c.store.executions["t"].phase == RUNNING
      && LaunchRecoveryTx(c.store, "t").Ok? && !Exclusive(LaunchRecoveryTx(c.store, "t").value, c.now))
  {
    hide Next, Inv, Conflict, Stored, Exclusive, Reached;
    var c := EXPIRED_STATE;
    ExpiredRun();
    ReachedInv(c);
    ScopeA();
    ExpiredReservationCollides(c, "t", "n");
    assert LaunchRecoveryTx(c.store, "t").value == WithoutEvidence(c.store, "t");
  }
}
