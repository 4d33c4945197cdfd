/**
 * Durable delegation reservations (shared/control-plane/src/delegation-operation.ts).
 *
 * A reservation decides which process may launch the runtime of a delegation. `dead` is the set of process
 * ids for which `processAlive` answers no.
 */
module DelegationOperations {
  import opened Bridge

  type AgentId = string
  type TaskId = string
  type ExecutorId = string
  type Pid = nat
  type Outcome = string
  type Key = (AgentId, string)

  datatype Phase = PREPARING | AUTHORIZED | FINISHED | UNCERTAIN

  /** `budget` is `max_attempts` of the frozen request. */
  datatype Operation = Operation(
    hash: string, task: TaskId, budget: nat, phase: Phase, executor: ExecutorId, pid: Pid, outcome: Option<Outcome>)

  type Table = map<Key, Operation>

  /** A delegation request as `reserveTask` looks at it; `task` is the created or found task, or why there is none. */
  datatype Request = Request(deadline: int, maxAttempts: int, hash: string, task: Result<TaskId>)

  predicate ValidRequest(q: Request) {
    1000 <= q.deadline <= 86400000 && 0 <= q.maxAttempts <= 5
  }

  datatype Reservation = Reservation(table: Table, operation: Operation, owned: bool)

  /** `reserveTask`: answer for an existing reservation, take over a dead preparation, or open a new one. */
  function Reserve(ops: Table, key: Key, q: Request, executor: ExecutorId, pid: Pid,
      dead: set<Pid>): Result<Reservation> {
    if !ValidRequest(q) then Err(INVALID_ARGUMENT)
    else if key in ops then
      var existing := ops[key];
      if existing.hash != q.hash then Err(IDEMPOTENCY_MISMATCH)
      else if existing.phase == FINISHED || existing.phase == UNCERTAIN then Ok(Reservation(ops, existing, false))
      else if existing.executor == executor then Ok(Reservation(ops, existing, true))
      else if existing.pid !in dead then Ok(Reservation(ops, existing, false))
      else if existing.phase == PREPARING then
        var resumed := existing.(executor := executor, pid := pid);
        Ok(Reservation(ops[key := resumed], resumed, true))
      else
        var uncertain := existing.(phase := UNCERTAIN);
        Ok(Reservation(ops[key := uncertain], uncertain, false))
    else
      var task :- q.task;
      var operation := Operation(q.hash, task, q.maxAttempts, PREPARING, executor, pid, None);
      Ok(Reservation(ops[key := operation], operation, true))
  }

  /** `authorize`: the reservation's own executor may launch, unless the outcome is known or uncertain. */
  function Authorize(ops: Table, key: Key, executor: ExecutorId): Result<Table>
    requires key in ops
  {
    var current := ops[key];
    if current.executor != executor || current.outcome.Some?
      || current.phase == UNCERTAIN then Err(OPERATION_IN_PROGRESS)
    else Ok(ops[key := current.(phase := AUTHORIZED)])
  }

  /** `finish`: the first outcome is the outcome. */
  function Finish(ops: Table, key: Key, executor: ExecutorId, outcome: Outcome): Result<(Table, Outcome)>
    requires key in ops
  {
    var current := ops[key];
    if current.outcome.Some? then Ok((ops, current.outcome.value))
    else if current.executor != executor then Err(OPERATION_IN_PROGRESS)
    else Ok((ops[key := current.(phase := FINISHED, outcome := Some(outcome))], outcome))
  }

  /** The reservation `continueTask` opens after prelaunch contention, with the earlier request's budget. */
  function Continue(ops: Table, prior: Key, key: Key, hash: string, executor: ExecutorId, pid: Pid): Result<Reservation>
    requires prior in ops
  {
    if key in ops then
      if ops[key].hash != hash then Err(IDEMPOTENCY_MISMATCH)
      else Ok(Reservation(ops, ops[key], ops[key].executor == executor))
    else
      var next := ops[prior].(hash := hash, phase := PREPARING, executor := executor, pid := pid, outcome := None);
      Ok(Reservation(ops[key := next], next, true))
  }

  // ---------------------------------------------------------------- what a reservation means

  /** A reservation belongs to one executor: while its process lives, nobody else who asks for the same key owns it. */
  lemma ReservedForOne(ops: Table, key: Key, q: Request, a: ExecutorId, pidA: Pid, dead: set<Pid>,
    again: Request, b: ExecutorId, pidB: Pid, dead': set<Pid>)
    requires Reserve(ops, key, q, a, pidA, dead).Ok? && Reserve(ops, key, q, a, pidA, dead).value.owned && a != b
    requires var r := Reserve(ops, key, q, a, pidA, dead).value; r.operation.pid !in dead'
    ensures var r := Reserve(ops, key, q, a, pidA, dead).value;
      && r.table[key] == r.operation && r.operation.executor == a
      && (Reserve(r.table, key, again, b, pidB, dead').Ok? ==>
            Reserve(r.table, key, again, b, pidB, dead').value == Reservation(r.table, r.operation, false))
      && Authorize(r.table, key, b).Err?
  {
  }

  /** After a takeover the former executor can neither launch nor finish the delegation. */
  lemma TakenOverForGood(ops: Table, key: Key, q: Request, b: ExecutorId, pidB: Pid, dead: set<Pid>, outcome: Outcome)
    requires key in ops && ops[key].executor != b && ops[key].outcome.None?
    requires Reserve(ops, key, q, b, pidB, dead).Ok? && Reserve(ops, key, q, b, pidB, dead).value.table != ops
    ensures var table := Reserve(ops, key, q, b, pidB, dead).value.table;
      && ops[key].pid in dead
      && Authorize(table, key, ops[key].executor).Err?
      && (table[key].phase == PREPARING ==>
        Finish(table, key, ops[key].executor, outcome).Err? && Authorize(table, key, b).Ok?)
      && (table[key].phase == UNCERTAIN ==> Authorize(table, key, b).Err?)
  {
  }

  /**
   * Authorisation leaves the reservation to its executor, who may still finish it, and marks it for a later takeover.
   */
  lemma AuthorizedIsUncertain(ops: Table, key: Key, a: ExecutorId, q: Request, b: ExecutorId, pidB: Pid, dead: set<Pid>)
    requires key in ops && Authorize(ops, key, a).Ok? && a != b && ops[key].pid in dead
    requires Reserve(Authorize(ops, key, a).value, key, q, b, pidB, dead).Ok?
    ensures ops[key].executor == a
    ensures var r := Reserve(Authorize(ops, key, a).value, key, q, b, pidB, dead).value;
      !r.owned && r.operation.phase in {UNCERTAIN, FINISHED} && forall x :: Authorize(r.table, key, x).Err?
  {
  }

  /** The first outcome is the outcome: whoever finishes or asks again gets it, and nobody launches any more. */
  lemma FirstOutcomeWins(ops: Table, key: Key, a: ExecutorId, outcome: Outcome, b: ExecutorId, other: Outcome,
      q: Request, pid: Pid, dead: set<Pid>)
    requires key in ops && Finish(ops, key, a, outcome).Ok? && (ops[key].outcome.Some? ==> ops[key].phase == FINISHED)
    ensures var (table, first) := Finish(ops, key, a, outcome).value;
      && (ops[key].outcome.None? ==> first == outcome && ops[key].executor == a)
      && Finish(table, key, b, other) == Ok((table, first))
      && Authorize(table, key, b).Err?
      && (Reserve(table, key, q, b, pid, dead).Ok? ==>
            var r := Reserve(table, key, q, b, pid, dead).value;
              r.table == table && !r.owned && r.operation.outcome == Some(first))
  {
  }

  /** A request is refused for its limits, for another request under its key, or because its task cannot be had. */
  lemma ReserveRefusedExactly(ops: Table, key: Key, q: Request, executor: ExecutorId, pid: Pid, dead: set<Pid>)
    ensures Reserve(ops, key, q, executor, pid, dead).Ok? <==>
      && 1000 <= q.deadline <= 86400000 && 0 <= q.maxAttempts <= 5
      && if key in ops then ops[key].hash == q.hash else q.task.Ok?
  {
  }

  /**
   * The first request opens a preparation of its own; asked again by its executor, it gets the same one and still owns
   * it.
   */
  lemma FirstRequestReserves(ops: Table, key: Key, q: Request, a: ExecutorId, pid: Pid, dead: set<Pid>, dead': set<Pid>)
    requires Reserve(ops, key, q, a, pid, dead).Ok? && key !in ops
    ensures var r := Reserve(ops, key, q, a, pid, dead).value;
      && r.operation == Operation(q.hash, q.task.value, q.maxAttempts, PREPARING, a, pid, None) && r.owned
      && r.table == ops[key := r.operation]
      && Reserve(r.table, key, q, a, pid, dead') == Ok(r)
  {
  }

  /**
   * Who else asks gets the reservation as it is, unless its process is dead: then a preparation is taken over, a launch
   * is uncertain.
   */
  lemma LaterRequestAnswers(ops: Table, key: Key, q: Request, b: ExecutorId, pid: Pid, dead: set<Pid>)
    requires Reserve(ops, key, q, b, pid, dead).Ok? && key in ops && ops[key].executor != b
    ensures Reserve(ops, key, q, b, pid, dead).value ==
      if ops[key].phase in {FINISHED, UNCERTAIN} || ops[key].pid !in dead then Reservation(ops, ops[key], false)
      else if ops[key].phase == PREPARING
      then Reservation(ops[key := ops[key].(executor := b, pid := pid)], ops[key].(executor := b, pid := pid), true)
      else Reservation(ops[key := ops[key].(phase := UNCERTAIN)], ops[key].(phase := UNCERTAIN), false)
  {
  }

  /**
   * Exactly the executor of an open reservation may launch, and finish; a launch marks it, and a finish records the
   * outcome.
   */
  lemma OwnerActsExactly(ops: Table, key: Key, a: ExecutorId, outcome: Outcome)
    requires key in ops && (ops[key].outcome.Some? <==> ops[key].phase == FINISHED)
    ensures Authorize(ops, key, a).Ok? <==> ops[key].executor == a && ops[key].phase in {PREPARING, AUTHORIZED}
    ensures Authorize(ops, key, a).Ok? ==> Authorize(ops, key, a).value == ops[key := ops[key].(phase := AUTHORIZED)]
    ensures Finish(ops, key, a, outcome).Ok? <==> ops[key].executor == a || ops[key].phase == FINISHED
    ensures Finish(ops, key, a, outcome).Ok? && ops[key].phase != FINISHED ==>
      Finish(ops, key, a, outcome).value ==
        (ops[key := ops[key].(phase := FINISHED, outcome := Some(outcome))], outcome)
  {
  }

  /**
   * A continuation is a preparation of its own for the task and budget of the earlier request, and leaves that one
   * alone.
   */
  lemma ContinuationReserves(ops: Table, prior: Key, key: Key, hash: string, a: ExecutorId, pid: Pid)
    requires prior in ops && key !in ops
    ensures Continue(ops, prior, key, hash, a, pid) ==
      var next := Operation(hash, ops[prior].task, ops[prior].budget, PREPARING, a, pid, None);
      Ok(Reservation(ops[key := next], next, true))
    ensures var r := Continue(ops, prior, key, hash, a, pid).value;
      Continue(r.table, prior, key, hash, a, pid) == Ok(r) && r.table[prior] == ops[prior]
  {
  }

  // ---------------------------------------------------------------- the service

  class OperationStore {
    var operations: Table

    constructor ()
      ensures operations == map[]
    {
      operations := map[];
    }
  }

  class Operations {
    const store: OperationStore
    const executor: ExecutorId
    const pid: Pid

    constructor (store: OperationStore, executor: ExecutorId, pid: Pid)
      ensures this.store == store && this.executor == executor && this.pid == pid
    {
      this.store, this.executor, this.pid := store, executor, pid;
    }

    method ReserveTask(key: Key, q: Request, dead: set<Pid>) returns (r: Result<(Operation, bool)>)
      modifies store
      ensures match Reserve(old(store.operations), key, q, executor, pid, dead)
        case Ok(v) => r == Ok((v.operation, v.owned)) && store.operations == v.table
        case Err(c) => r == Err(c) && store.operations == old(store.operations)
    {
      if !(1000 <= q.deadline <= 86400000 && 0 <= q.maxAttempts <= 5) { return Err(INVALID_ARGUMENT); }
      if key in store.operations {
        var existing := store.operations[key];
        if existing.hash != q.hash { return Err(IDEMPOTENCY_MISMATCH); }
        if existing.phase == FINISHED || existing.phase == UNCERTAIN { return Ok((existing, false)); }
        if existing.executor == executor { return Ok((existing, true)); }
        if existing.pid !in dead { return Ok((existing, false)); }
        if existing.phase == PREPARING {
          var resumed := existing.(executor := executor, pid := pid);
          store.operations := store.operations[key := resumed];
          return Ok((resumed, true));
        }
        var uncertain := existing.(phase := UNCERTAIN);
        store.operations := store.operations[key := uncertain];
        return Ok((uncertain, false));
      }
      if q.task.Err? { return Err(q.task.code); }
      var operation := Operation(q.hash, q.task.value, q.maxAttempts, PREPARING, executor, pid, None);
      store.operations := store.operations[key := operation];
      return Ok((operation, true));
    }

    method AuthorizeLaunch(key: Key) returns (r: Result<()>)
      requires key in store.operations
      modifies store
      ensures match Authorize(old(store.operations), key, executor)
        case Ok(t) => r == Ok(()) && store.operations == t
        case Err(c) => r == Err(c) && store.operations == old(store.operations)
    {
      var current := store.operations[key];
      if current.executor != executor || current.outcome.Some? || current.phase == UNCERTAIN {
        return Err(OPERATION_IN_PROGRESS);
      }
      store.operations := store.operations[key := current.(phase := AUTHORIZED)];
      return Ok(());
    }

    method FinishOperation(key: Key, outcome: Outcome) returns (r: Result<Outcome>)
      requires key in store.operations
      modifies store
      ensures match Finish(old(store.operations), key, executor, outcome)
        case Ok(v) => r == Ok(v.1) && store.operations == v.0
        case Err(c) => r == Err(c) && store.operations == old(store.operations)
    {
      var current := store.operations[key];
      if current.outcome.Some? { return Ok(current.outcome.value); }
      if current.executor != executor { return Err(OPERATION_IN_PROGRESS); }
      store.operations := store.operations[key := current.(phase := FINISHED, outcome := Some(outcome))];
      return Ok(outcome);
    }
  }
}
