/**
 * One launcher per delegation, across crashes: the reservations of `DelegationOperations` together with the
 * retry loop of `delegateOnce` (shared/control-plane/src/orchestrator.ts), run by many processes.
 */
module OneLauncher {
  import opened Bridge
  import opened DelegationOperations

  /** A call of `delegateOnce` by one executor: how many rounds of its loop are left, and whether it has returned. */
  datatype Loop = Loop(left: nat, ended: bool)

  /** `log` records, per delegation, the executor of every launch authorisation so far. */
  datatype System = System(
    ops: Table, pids: map<ExecutorId, Pid>, dead: set<Pid>, loops: map<(ExecutorId, Key), Loop>, log: map<Key,
      seq<ExecutorId>>)

  datatype Step =
    | Crash(pid: Pid)
    | Start(executor: ExecutorId, pid: Pid)
    | Delegate(executor: ExecutorId, key: Key, q: Request)
    | ContinueTask(executor: ExecutorId, prior: Key, key: Key, hash: string)
    | Attempt(executor: ExecutorId, key: Key, launches: bool)
    | FinishWith(executor: ExecutorId, key: Key, outcome: Outcome, returns': bool)

  predicate Alive(c: System, executor: ExecutorId) {
    executor in c.pids && c.pids[executor] !in c.dead
  }

  function LogOf(c: System, key: Key): seq<ExecutorId> {
    if key in c.log then c.log[key] else []
  }

  /**
   * `runReservedDelegation`: an owned reservation without outcome starts the loop, unless it is already running here.
   */
  function Opened(c: System, executor: ExecutorId, key: Key, r: Reservation): System {
    var c1 := c.(ops := r.table);
    if !r.owned || r.operation.outcome.Some? then c1
    else if (executor, key) in c.loops && !c.loops[(executor, key)].ended then c1
    else c1.(loops := c.loops[(executor, key) := Loop(r.operation.budget + 1, false)])
  }

  function Next(c: System, step: Step): Result<System> {
    match step
    case Crash(pid) => Ok(c.(dead := c.dead + {pid}))
    case Start(executor, pid) =>
      if executor in c.pids then Err(INTERNAL) else Ok(c.(pids := c.pids[executor := pid]))
    case Delegate(executor, key, q) =>
      if !Alive(c, executor) then Err(INTERNAL)
      else
        var r :- Reserve(c.ops, key, q, executor, c.pids[executor], c.dead);
        Ok(Opened(c, executor, key, r))
    case ContinueTask(executor, prior, key, hash) =>
      if !Alive(c, executor) || prior !in c.ops then Err(INTERNAL)
      else
        var r :- Continue(c.ops, prior, key, hash, executor, c.pids[executor]);
        Ok(Opened(c, executor, key, r))
    case Attempt(executor, key, launches) =>
      // One round of the loop: its launch transaction authorises at most once.
      if !Alive(c, executor) || (executor, key) !in c.loops || key !in c.ops then Err(INTERNAL)
      else
        var loop := c.loops[(executor, key)];
        if loop.ended || loop.left == 0 then Err(INTERNAL)
        else
          var c1 := c.(loops := c.loops[(executor, key) := loop.(left := loop.left - 1)]);
          if !launches then Ok(c1)
          else
            var ops :- Authorize(c.ops, key, executor);
            Ok(c1.(ops := ops, log := c.log[key := LogOf(c, key) + [executor]]))
    case FinishWith(executor, key, outcome, returns') =>
      if !Alive(c, executor) || (executor, key) !in c.loops || key !in c.ops
        || c.loops[(executor, key)].ended then Err(INTERNAL)
      else
        var r :- Finish(c.ops, key, executor, outcome);
        Ok(c.(ops := r.0, loops := c.loops[(executor, key) := c.loops[(executor, key)].(ended := returns')]))
  }

  ghost predicate Initial(c: System) {
    c.ops == map[] && c.loops == map[] && c.log == map[]
  }

  ghost predicate Run(states: seq<System>, steps: seq<Step>) {
    && |states| == |steps| + 1
    && Initial(states[0])
    && forall i :: 0 <= i < |steps| ==> Next(states[i], steps[i]) == Ok(states[i + 1])
  }

  // ---------------------------------------------------------------- the invariant

  /** The reservation itself, its executor's process, and the authorisations given so far. */
  ghost predicate OperationInv(c: System, key: Key)
    requires key in c.ops
  {
    var o := c.ops[key];
    && o.executor in c.pids && c.pids[o.executor] == o.pid
    && (o.outcome.Some? <==> o.phase == FINISHED)
    && (o.phase == UNCERTAIN ==> o.pid in c.dead)
    && (o.phase == PREPARING ==> LogOf(c, key) == [])
    && (forall x :: x in LogOf(c, key) ==> x == o.executor)
    && (if (o.executor, key) in c.loops
        then |LogOf(c, key)| + c.loops[(o.executor, key)].left <= o.budget + 1
        else LogOf(c, key) == [])
  }

  /** A loop belongs to the reservation's executor unless its process died; one that returned left an outcome. */
  ghost predicate LoopInv(c: System, executor: ExecutorId, key: Key)
    requires (executor, key) in c.loops
  {
    && key in c.ops && executor in c.pids
    && (Alive(c, executor) ==> c.ops[key].executor == executor)
    && (c.loops[(executor, key)].ended ==> c.ops[key].outcome.Some?)
  }

  ghost predicate Inv(c: System) {
    && (forall key :: key in c.ops ==> OperationInv(c, key))
    && (forall executor, key :: (executor, key) in c.loops ==> LoopInv(c, executor, key))
    && c.log.Keys <= c.ops.Keys
  }

  lemma CrashKeeps(c: System, step: Step, c': System)
    requires Inv(c) && Next(c, step) == Ok(c') && (step.Crash? || step.Start?)
    ensures Inv(c')
  {
    forall key | key in c'.ops ensures OperationInv(c', key) {
      assert OperationInv(c, key);
    }
    forall executor, key | (executor, key) in c'.loops ensures LoopInv(c', executor, key) {
      assert LoopInv(c, executor, key);
    }
  }

  /** What a reservation may do to the row of its key. */
  ghost predicate ReservedRow(c: System, executor: ExecutorId, key: Key, r: Reservation)
    requires executor in c.pids
  {
    && r.table == c.ops[key := r.operation]
    && (key !in c.ops ==> r.operation.phase == PREPARING && r.operation.outcome.None?)
    && (r.owned ==> r.operation.executor == executor && r.operation.pid == c.pids[executor])
    && (key in c.ops ==>
        || r.operation == c.ops[key]
        || (c.ops[key].phase == PREPARING && c.ops[key].pid in c.dead && r.owned
            && r.operation == c.ops[key].(executor := executor, pid := c.pids[executor]))
        || (c.ops[key].phase == AUTHORIZED && c.ops[key].pid in c.dead && !r.owned
            && r.operation == c.ops[key].(phase := UNCERTAIN)))
    && (key !in c.ops ==> r.owned)
  }

  lemma ReservationShape(c: System, step: Step)
    requires Inv(c) && (step.Delegate? || step.ContinueTask?) && Next(c, step).Ok?
    ensures exists r ::
      ReservedRow(c, step.executor, step.key, r) && Next(c, step) == Ok(Opened(c, step.executor, step.key, r))
  {
    var r: Reservation;
    if step.Delegate? {
      r := Reserve(c.ops, step.key, step.q, step.executor, c.pids[step.executor], c.dead).value;
    } else {
      r := Continue(c.ops, step.prior, step.key, step.hash, step.executor, c.pids[step.executor]).value;
    }
    if step.key in c.ops {
      assert OperationInv(c, step.key);
      assert c.ops[step.key := c.ops[step.key]] == c.ops;
    }
    assert ReservedRow(c, step.executor, step.key, r);
  }

  lemma OpenedOperation(c: System, executor: ExecutorId, key: Key, r: Reservation)
    requires Inv(c) && Alive(c, executor) && ReservedRow(c, executor, key, r)
    ensures OperationInv(Opened(c, executor, key, r), key)
  {
    hide Reserve, Continue;
    if key in c.ops { assert OperationInv(c, key); }
    if (executor, key) in c.loops { assert LoopInv(c, executor, key); }
    assert key !in c.ops ==> LogOf(c, key) == [];
  }

  lemma OpenedLoop(c: System, executor: ExecutorId, key: Key, r: Reservation, e: ExecutorId, k: Key)
    requires Inv(c) && Alive(c, executor) && ReservedRow(c, executor, key, r)
    requires (e, k) in Opened(c, executor, key, r).loops
    ensures LoopInv(Opened(c, executor, key, r), e, k)
  {
    if (e, k) in c.loops { assert LoopInv(c, e, k); }
    if k in c.ops { assert OperationInv(c, k); }
  }

  lemma OtherOperation(c: System, executor: ExecutorId, key: Key, r: Reservation, k: Key)
    requires Alive(c, executor) && ReservedRow(c, executor, key, r) && k in c.ops && OperationInv(c, k) && k != key
    ensures k in Opened(c, executor, key, r).ops && OperationInv(Opened(c, executor, key, r), k)
  {
  }

  lemma OpenedKeeps(c: System, executor: ExecutorId, key: Key, r: Reservation)
    requires Inv(c) && Alive(c, executor) && ReservedRow(c, executor, key, r)
    ensures Inv(Opened(c, executor, key, r))
  {
    hide LoopInv, OperationInv;
    var c' := Opened(c, executor, key, r);
    forall k | k in c'.ops ensures OperationInv(c', k) {
      if k == key { OpenedOperation(c, executor, key, r); } else { OtherOperation(c, executor, key, r, k); }
    }
    forall e, k | (e, k) in c'.loops ensures LoopInv(c', e, k) {
      OpenedLoop(c, executor, key, r, e, k);
    }
  }

  lemma OpenKeeps(c: System, step: Step, c': System)
    requires Inv(c) && Next(c, step) == Ok(c') && (step.Delegate? || step.ContinueTask?)
    ensures Inv(c')
  {
    ReservationShape(c, step);
    var r :| ReservedRow(c, step.executor, step.key, r) && Next(c, step) == Ok(Opened(c, step.executor, step.key, r));
    OpenedKeeps(c, step.executor, step.key, r);
  }

  lemma AttemptKeeps(c: System, step: Step, c': System)
    requires Inv(c) && Next(c, step) == Ok(c') && (step.Attempt? || step.FinishWith?)
    ensures Inv(c')
  {
    hide OperationInv, LoopInv, Next;
    AttemptKeys(c, step, c');
    forall key | key in c'.ops ensures OperationInv(c', key) {
      AttemptedOperation(c, step, c', key);
    }
    forall executor, key | (executor, key) in c'.loops ensures LoopInv(c', executor, key) {
      LoopHasOperation(c, executor, key);
      AttemptedLoop(c, step, c', executor, key);
    }
  }

  lemma LoopHasOperation(c: System, executor: ExecutorId, key: Key)
    requires (executor, key) in c.loops && LoopInv(c, executor, key)
    ensures key in c.ops
  {
  }

  lemma AttemptKeys(c: System, step: Step, c': System)
    requires Next(c, step) == Ok(c') && (step.Attempt? || step.FinishWith?)
    ensures c'.ops.Keys == c.ops.Keys && c'.loops.Keys == c.loops.Keys && c'.log.Keys <= c.log.Keys + {step.key}
    ensures step.key in c.ops && (step.executor, step.key) in c.loops
  {
  }

  lemma AttemptedOperation(c: System, step: Step, c': System, key: Key)
    requires Next(c, step) == Ok(c') && (step.Attempt? || step.FinishWith?) && key in c.ops && key in c'.ops
      && OperationInv(c, key)
    requires (step.executor, step.key) in c.loops && LoopInv(c, step.executor, step.key)
    ensures OperationInv(c', key)
  {
  }

  lemma AttemptedLoop(c: System, step: Step, c': System, executor: ExecutorId, key: Key)
    requires Next(c, step) == Ok(c') && (step.Attempt? || step.FinishWith?) && key in c.ops && OperationInv(c, key)
    requires (executor, key) in c.loops && (executor, key) in c'.loops && LoopInv(c, executor, key)
    ensures LoopInv(c', executor, key)
  {
  }

  lemma StepKeepsInv(c: System, step: Step, c': System)
    requires Inv(c) && Next(c, step) == Ok(c')
    ensures Inv(c')
  {
    hide Inv, Next;
    if step.Crash? || step.Start? {
      CrashKeeps(c, step, c');
    } else if step.Delegate? || step.ContinueTask? {
      OpenKeeps(c, step, c');
    } else {
      AttemptKeeps(c, step, c');
    }
  }

  lemma {:induction false} RunKeepsInv(states: seq<System>, steps: seq<Step>, i: nat)
    requires Run(states, steps) && i < |states|
    ensures Inv(states[i])
  {
    hide Next;
    if i > 0 {
      RunKeepsInv(states, steps, i - 1);
      assert Next(states[i - 1], steps[i - 1]) == Ok(states[i - 1 + 1]);
      StepKeepsInv(states[i - 1], steps[i - 1], states[i]);
    }
  }

  // ---------------------------------------------------------------- the guarantees

  /**
   * One launcher: in every state of every run all launch authorisations of a delegation were given to one
   * executor, and there are at most max_attempts + 1 of them.
   */
  lemma OneLauncherPerDelegation(states: seq<System>, steps: seq<Step>, i: nat, key: Key)
    requires Run(states, steps) && i < |states| && key in states[i].ops
    ensures forall x, y :: x in LogOf(states[i], key) && y in LogOf(states[i], key) ==> x == y
    ensures |LogOf(states[i], key)| <= states[i].ops[key].budget + 1
  {
    hide Next;
    RunKeepsInv(states, steps, i);
    assert OperationInv(states[i], key);
  }

  /** The moves a reservation can make: PREPARING, AUTHORIZED, then FINISHED or UNCERTAIN. */
  predicate LegalMove(a: Phase, b: Phase) {
    a == b || match a
      case PREPARING => b == AUTHORIZED || b == FINISHED
      case AUTHORIZED => b == FINISHED || b == UNCERTAIN
      case FINISHED => false
      case UNCERTAIN => false
  }

  /** How one step may change one reservation and its log. */
  ghost predicate LegalChange(c: System, c': System, key: Key)
    requires key in c.ops
  {
    && key in c'.ops
    && var o, o' := c.ops[key], c'.ops[key];
    && o'.hash == o.hash && o'.task == o.task && o'.budget == o.budget
    && LegalMove(o.phase, o'.phase)
    && (o'.executor == o.executor ==> o'.pid == o.pid)
    && (o'.executor != o.executor ==> o.phase == PREPARING && o'.phase == PREPARING && o.pid in c.dead)
    && (o.outcome.Some? ==> o' == o && LogOf(c', key) == LogOf(c, key))
    && (o.pid in c.dead && o.phase != PREPARING ==> LogOf(c', key) == LogOf(c, key))
    && LogOf(c, key) <= LogOf(c', key)
  }

  /** Phases only move forward, the executor changes only while PREPARING, and an outcome is final. */
  lemma StepIsLegal(c: System, step: Step, c': System, key: Key)
    requires Inv(c) && Next(c, step) == Ok(c') && key in c.ops
    ensures LegalChange(c, c', key)
  {
    hide Inv;
    if step.Attempt? || step.FinishWith? {
      hide Next, LegalChange;
      AttemptIsLegal(c, step, c', key);
    } else if step.Delegate? || step.ContinueTask? {
      ReservationShape(c, step);
      var r :| ReservedRow(c, step.executor, step.key, r) && Next(c, step) == Ok(Opened(c, step.executor, step.key, r));
      hide Next, LegalChange;
      OpeningIsLegal(c, step.executor, step.key, r, key);
    }
  }

  lemma OpeningIsLegal(c: System, executor: ExecutorId, into: Key, r: Reservation, key: Key)
    requires Inv(c) && Alive(c, executor) && ReservedRow(c, executor, into, r) && key in c.ops
    ensures LegalChange(c, Opened(c, executor, into, r), key)
  {
    assert OperationInv(c, key);
    hide Inv;
  }

  lemma AttemptIsLegal(c: System, step: Step, c': System, key: Key)
    requires Inv(c) && Next(c, step) == Ok(c') && key in c.ops && (step.Attempt? || step.FinishWith?)
    ensures LegalChange(c, c', key)
  {
    assert OperationInv(c, key);
    assert LoopInv(c, step.executor, step.key);
  }

  /** An outcome, once written, is the outcome in every later state of the run. */
  lemma {:induction false} OutcomeIsFinal(states: seq<System>, steps: seq<Step>, i: nat, j: nat, key: Key)
    requires Run(states, steps) && i <= j < |states| && key in states[i].ops && states[i].ops[key].outcome.Some?
    ensures key in states[j].ops && states[j].ops[key] == states[i].ops[key]
      && LogOf(states[j], key) == LogOf(states[i], key)
    decreases j - i
  {
    hide Next, Inv;
    if i < j {
      OutcomeIsFinal(states, steps, i, j - 1, key);
      RunKeepsInv(states, steps, j - 1);
      assert Next(states[j - 1], steps[j - 1]) == Ok(states[j - 1 + 1]);
      StepIsLegal(states[j - 1], steps[j - 1], states[j], key);
    }
  }

  lemma DeadStaysDead(c: System, step: Step, c': System)
    requires Next(c, step) == Ok(c')
    ensures c.dead <= c'.dead
  {
  }

  /** Once the executor of an authorised launch is dead, the delegation is never launched again. */
  lemma {:induction false} DeadLaunchIsNotRepeated(states: seq<System>, steps: seq<Step>, i: nat, j: nat, key: Key)
    requires Run(states, steps) && i <= j < |states| && key in states[i].ops
    requires states[i].ops[key].phase != PREPARING && states[i].ops[key].pid in states[i].dead
    ensures key in states[j].ops && LogOf(states[j], key) == LogOf(states[i], key)
    ensures states[j].ops[key].phase != PREPARING && states[j].ops[key].pid in states[j].dead
    decreases j - i
  {
    hide Next, Inv;
    if i < j {
      DeadLaunchIsNotRepeated(states, steps, i, j - 1, key);
      RunKeepsInv(states, steps, j - 1);
      assert Next(states[j - 1], steps[j - 1]) == Ok(states[j - 1 + 1]);
      StepIsLegal(states[j - 1], steps[j - 1], states[j], key);
      DeadStaysDead(states[j - 1], steps[j - 1], states[j]);
    }
  }
}
