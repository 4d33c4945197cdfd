/**
 * Tasks, their state machine and their dependencies (shared/control-plane/src/task-service.ts,
 * shared/protocol/src/types.ts and the task tables of shared/control-plane/src/store/sqlite-store.ts).
 *
 * Every operation is one transaction. It is first defined on the value of the tables; the methods of the
 * class change the tables in place and are proved to do exactly that.
 */
module TaskService {
  import opened Bridge
  import opened Text
  import opened TaskGraph

  type AgentId = string

  datatype TaskState = PENDING | CLAIMED | WORKING | BLOCKED | VERIFYING | DONE | FAILED | CANCELLED

  datatype Task = Task(
    state: TaskState, owner: Option<AgentId>, attempt: nat, version: nat, dependencies: seq<TaskId>, createdAt: int)

  /** The rows of `tasks`, and the separate rows of `task_dependencies`. */
  datatype Store = Store(tasks: map<TaskId, Task>, edges: Edges)

  /** What `assertRecoverable` reads from telemetry and attempts, and the verdict on the stored lineage. */
  datatype Evidence = Evidence(needsRepair: bool, tooEarly: bool, interrupted: bool, lineage: bool)

  /** `ALLOWED_TRANSITIONS`. */
  function Allowed(from: TaskState): set<TaskState> {
    match from
    case PENDING => {CLAIMED, CANCELLED}
    case CLAIMED => {WORKING, BLOCKED, PENDING, CANCELLED}
    case WORKING => {BLOCKED, VERIFYING, FAILED, CANCELLED}
    case BLOCKED => {WORKING, CLAIMED, FAILED, CANCELLED}
    case VERIFYING => {DONE, BLOCKED, WORKING, FAILED}
    case DONE => {}
    case FAILED => {}
    case CANCELLED => {}
  }

  predicate CanTransition(from: TaskState, to: TaskState) {
    to in Allowed(from)
  }

  function EdgesOf(id: TaskId, deps: seq<TaskId>): Edges {
    set d | d in deps :: (id, d)
  }

  predicate IsDone(s: Store, d: TaskId) {
    d in s.tasks && s.tasks[d].state == DONE
  }

  predicate DependenciesDone(s: Store, id: TaskId) {
    forall e :: e in s.edges && e.0 == id ==> IsDone(s, e.1)
  }

  /** The write succeeds only on the version it was computed from. */
  function UpdateTask(s: Store, id: TaskId, t: Task): Result<Store> {
    if id in s.tasks && s.tasks[id].version + 1 == t.version then Ok(s.(tasks := s.tasks[id := t])) else Err(INTERNAL)
  }

  function Owned(s: Store, id: TaskId, agent: AgentId): Result<Task> {
    if id !in s.tasks then Err(NOT_FOUND)
    else if s.tasks[id].owner != Some(agent) then Err(NOT_OWNER)
    else Ok(s.tasks[id])
  }

  function Moved(t: Task, to: TaskState): Task {
    t.(state := to, version := t.version + 1)
  }

  function Create(s: Store, id: TaskId, deps: seq<TaskId>, now: int): Result<Store> {
    if exists d :: d in deps && d !in s.tasks then Err(NOT_FOUND)
    else Ok(Store(s.tasks[id := Task(PENDING, None, 0, 1, deps, now)], s.edges + EdgesOf(id, deps)))
  }

  function Claim(s: Store, id: TaskId, agent: AgentId): Result<Store> {
    if id !in s.tasks then Err(NOT_FOUND)
    else
      var t := s.tasks[id];
      if t.owner.Some? && t.owner != Some(agent) then Err(NOT_OWNER)
      else if t.owner == Some(agent) && t.state != PENDING then Ok(s)
      else if !CanTransition(t.state, CLAIMED) then Err(ILLEGAL_TRANSITION)
      else UpdateTask(s, id, Moved(t, CLAIMED).(owner := Some(agent)))
  }

  function Release(s: Store, id: TaskId, agent: AgentId): Result<Store> {
    var t :- Owned(s, id, agent);
    if !CanTransition(t.state, PENDING) then Err(ILLEGAL_TRANSITION)
    else UpdateTask(s, id, Moved(t, PENDING).(owner := None))
  }

  ghost function AddDependency(s: Store, id: TaskId, d: TaskId): Result<Store> {
    if id !in s.tasks || d !in s.tasks then Err(NOT_FOUND)
    else if id == d || Reachable(s.edges, d, id) then Err(DEPENDENCY_CYCLE)
    else
      var t := s.tasks[id];
      if d in t.dependencies then Ok(s)
      else
        var s1 :- UpdateTask(s, id, t.(dependencies := t.dependencies + [d], version := t.version + 1));
        Ok(s1.(edges := s1.edges + {(id, d)}))
  }

  /** `transition`: dependencies are checked on the way into WORKING only. */
  function Transition(s: Store, id: TaskId, agent: AgentId, to: TaskState): Result<Store> {
    var t :- Owned(s, id, agent);
    if t.state == to then Ok(s)
    else if !CanTransition(t.state, to) then Err(ILLEGAL_TRANSITION)
    else if to == WORKING && !DependenciesDone(s, id) then Err(DEPENDENCY_UNSATISFIED)
    else UpdateTask(s, id, Moved(t, to))
  }

  /** `assertRecoverable`. */
  function NotRecoverable(t: Task, e: Evidence): Option<ErrorCode> {
    if e.needsRepair then Some(INVALID_ARGUMENT)
    else if e.tooEarly then Some(OPERATION_IN_PROGRESS)
    else if t.state == PENDING || t.state == DONE || (t.state == FAILED && !e.interrupted) || t.state == CANCELLED
    then Some(ILLEGAL_TRANSITION)
    else None
  }

  function BeginRecovery(s: Store, id: TaskId, agent: AgentId, nextAttempt: nat, e: Evidence): Result<Store> {
    var t :- Owned(s, id, agent);
    if NotRecoverable(t, e).Some? then Err(NotRecoverable(t, e).value)
    else if nextAttempt != t.attempt + 1 then Err(ILLEGAL_TRANSITION)
    else if !DependenciesDone(s, id) then Err(DEPENDENCY_UNSATISFIED)
    else if !e.lineage then Err(INVALID_ARGUMENT)
    else UpdateTask(s, id, Moved(t, WORKING).(attempt := nextAttempt))
  }

  function Hop(s: Store, id: TaskId, to: TaskState): Result<Store>
    requires id in s.tasks
  {
    if !CanTransition(s.tasks[id].state, to) then Err(ILLEGAL_TRANSITION) else UpdateTask(s, id, Moved(s.tasks[id], to))
  }

  /** `finalizeDeliverable`: DONE is reached from WORKING by way of VERIFYING, in one transaction. */
  function Finalize(s: Store, id: TaskId, agent: AgentId, to: TaskState): Result<Store> {
    var t :- Owned(s, id, agent);
    if t.state == to then Ok(s)
    else if to == DONE && t.state == WORKING then
      var s1 :- Hop(s, id, VERIFYING);
      Hop(s1, id, DONE)
    else Hop(s, id, to)
  }

  function Block(s: Store, id: TaskId, agent: AgentId): Result<Store> {
    var t :- Owned(s, id, agent);
    Hop(s, id, BLOCKED)
  }

  function Unblock(s: Store, id: TaskId, agent: AgentId): Result<Store> {
    var t :- Owned(s, id, agent);
    if t.state != BLOCKED then Ok(s) else UpdateTask(s, id, Moved(t, WORKING))
  }

  function Retry(s: Store, id: TaskId, maxAttempts: int): Result<Store> {
    if id !in s.tasks then Err(NOT_FOUND)
    else
      var t := s.tasks[id];
      if t.state != FAILED || t.attempt + 1 >= maxAttempts then Err(ILLEGAL_TRANSITION)
      else UpdateTask(s, id, Moved(t, PENDING).(owner := None, attempt := t.attempt + 1))
  }

  /** The oldest `limit` PENDING rows, in order of creation; ties may come in any order. */
  ghost predicate IsListing(s: Store, limit: nat, rows: seq<TaskId>) {
    && (forall i :: 0 <= i < |rows| ==> rows[i] in s.tasks && s.tasks[rows[i]].state == PENDING)
    && (forall i, j :: 0 <= i < j < |rows| ==>
      rows[i] != rows[j] && s.tasks[rows[i]].createdAt <= s.tasks[rows[j]].createdAt)
    && |rows| <= limit
    && (forall id :: id in s.tasks && s.tasks[id].state == PENDING && id !in rows ==>
          |rows| == limit && forall i :: 0 <= i < |rows| ==> s.tasks[rows[i]].createdAt <= s.tasks[id].createdAt)
  }

  predicate IsReady(s: Store, id: TaskId) {
    id in s.tasks && s.tasks[id].state == PENDING && s.tasks[id].owner == None && DependenciesDone(s, id)
  }

  // ---------------------------------------------------------------- the tables and the service

  class TaskTables {
    var tasks: map<TaskId, Task>
    var edges: Edges

    function View(): Store
      reads this
    {
      Store(tasks, edges)
    }

    constructor ()
      ensures View() == Store(map[], {})
    {
      tasks, edges := map[], {};
    }

    method Update(id: TaskId, t: Task) returns (r: Result<()>)
      modifies this`tasks
      ensures match UpdateTask(old(View()), id, t)
        case Ok(s) => r == Ok(()) && View() == s
        case Err(c) => r == Err(c) && View() == old(View())
    {
      if id !in tasks || tasks[id].version != t.version - 1 { return Err(INTERNAL); }
      tasks := tasks[id := t];
      return Ok(());
    }

    /** `getDependencies`: the rows of one task, in order. */
    method GetDependencies(id: TaskId) returns (r: seq<TaskId>)
      ensures Increasing(r)
      ensures forall d :: d in r <==> (id, d) in edges
    {
      r := [];
      var todo := edges;
      while todo != {}
        invariant todo <= edges && Increasing(r)
        invariant forall d :: d in r <==> (id, d) in edges - todo
        decreases |todo|
      {
        var e :| e in todo;
        todo := todo - {e};
        if e.0 == id { r := Insert(e.1, r); }
      }
    }
  }

  class Tasks {
    const db: TaskTables

    constructor (db: TaskTables)
      ensures this.db == db
    {
      this.db := db;
    }

    /** `create`, without lineage; `id` is the fresh identifier. */
    method CreateTask(id: TaskId, deps: seq<TaskId>, now: int) returns (r: Result<()>)
      modifies db
      ensures match Create(old(db.View()), id, deps, now)
        case Ok(s) => r == Ok(()) && db.View() == s
        case Err(c) => r == Err(c) && db.View() == old(db.View())
    {
      for i := 0 to |deps|
        invariant forall j :: 0 <= j < i ==> deps[j] in db.tasks
      {
        if deps[i] !in db.tasks { return Err(NOT_FOUND); }
      }
      db.tasks := db.tasks[id := Task(PENDING, None, 0, 1, deps, now)];
      ghost var before := db.edges;
      for i := 0 to |deps|
        invariant db.tasks == old(db.tasks)[id := Task(PENDING, None, 0, 1, deps, now)]
        invariant db.edges == before + EdgesOf(id, deps[..i])
      {
        assert deps[..i + 1] == deps[..i] + [deps[i]];
        db.edges := db.edges + {(id, deps[i])};
      }
      assert deps[..|deps|] == deps;
      return Ok(());
    }

    method ClaimTask(id: TaskId, agent: AgentId) returns (r: Result<()>)
      modifies db
      ensures match Claim(old(db.View()), id, agent)
        case Ok(s) => r == Ok(()) && db.View() == s
        case Err(c) => r == Err(c) && db.View() == old(db.View())
    {
      if id !in db.tasks { return Err(NOT_FOUND); }
      var t := db.tasks[id];
      if t.owner.Some? && t.owner != Some(agent) { return Err(NOT_OWNER); }
      if t.owner == Some(agent) && t.state != PENDING { return Ok(()); }
      if !CanTransition(t.state, CLAIMED) { return Err(ILLEGAL_TRANSITION); }
      r := db.Update(id, Moved(t, CLAIMED).(owner := Some(agent)));
    }

    method ReleaseTask(id: TaskId, agent: AgentId) returns (r: Result<()>)
      modifies db
      ensures match Release(old(db.View()), id, agent)
        case Ok(s) => r == Ok(()) && db.View() == s
        case Err(c) => r == Err(c) && db.View() == old(db.View())
    {
      var t :- Owned(db.View(), id, agent);
      if !CanTransition(t.state, PENDING) { return Err(ILLEGAL_TRANSITION); }
      r := db.Update(id, Moved(t, PENDING).(owner := None));
    }

    /** `reaches`: depth-first search with an explicit stack and the set of tasks already expanded. */
    method Reaches(from: TaskId, to: TaskId) returns (found: bool)
      ensures found <==> Reachable(db.edges, from, to)
    {
      ghost var nodes := {from} + set e | e in db.edges :: e.1;
      var seen: set<TaskId> := {};
      var stack := [from];
      ReachSelf(db.edges, from);
      while |stack| > 0
        invariant Frontier(db.edges, from, to, seen, stack)
        invariant seen <= nodes && forall x :: x in stack ==> x in nodes
        decreases |nodes - seen|, |stack|
      {
        var current := stack[|stack| - 1];
        ghost var below := stack[..|stack| - 1];
        assert stack == below + [current];
        stack := stack[..|stack| - 1];
        if current == to { return true; }
        if current in seen { continue; }
        SmallerSet(nodes - (seen + {current}), nodes - seen);
        seen := seen + {current};
        var deps := db.GetDependencies(current);
        forall x | x in deps ensures x in nodes && Reachable(db.edges, from, x) {
          assert (current, x) in db.edges;
          ReachThrough(db.edges, from, current, x);
        }
        stack := stack + deps;
      }
      if Reachable(db.edges, from, to) {
        var p :| PathBetween(db.edges, p, from, to);
        SeenIsClosed(db.edges, p, from, to, seen);
      }
      return false;
    }

    method AddDependencyTo(id: TaskId, d: TaskId) returns (r: Result<()>)
      modifies db
      ensures match AddDependency(old(db.View()), id, d)
        case Ok(s) => r == Ok(()) && db.View() == s
        case Err(c) => r == Err(c) && db.View() == old(db.View())
    {
      if id !in db.tasks { return Err(NOT_FOUND); }
      if d !in db.tasks { return Err(NOT_FOUND); }
      if id == d { return Err(DEPENDENCY_CYCLE); }
      var cycle := Reaches(d, id);
      if cycle { return Err(DEPENDENCY_CYCLE); }
      var t := db.tasks[id];
      if d in t.dependencies { return Ok(()); }
      r := db.Update(id, t.(dependencies := t.dependencies + [d], version := t.version + 1));
      db.edges := db.edges + {(id, d)};
    }

    /** `checkDependencies`: the dependencies that are missing or not DONE. */
    method CheckDependencies(id: TaskId) returns (unsatisfied: seq<TaskId>)
      ensures forall d :: d in unsatisfied <==> (id, d) in db.edges && !IsDone(db.View(), d)
      ensures unsatisfied == [] <==> DependenciesDone(db.View(), id)
    {
      unsatisfied := [];
      var deps := db.GetDependencies(id);
      for i := 0 to |deps|
        invariant forall d :: d in unsatisfied <==> d in deps[..i] && !IsDone(db.View(), d)
      {
        assert deps[..i + 1] == deps[..i] + [deps[i]];
        if !IsDone(db.View(), deps[i]) { unsatisfied := unsatisfied + [deps[i]]; }
      }
      assert deps[..|deps|] == deps;
      assert unsatisfied != [] ==> unsatisfied[0] in unsatisfied;
    }

    /** `readyTasks`, given the rows the query for PENDING tasks returned. */
    method ReadyTasks(rows: seq<TaskId>, ghost limit: nat) returns (ready: seq<TaskId>)
      requires IsListing(db.View(), limit, rows)
      ensures forall id :: id in ready <==> id in rows && IsReady(db.View(), id)
    {
      ready := [];
      for i := 0 to |rows|
        invariant forall id :: id in ready <==> id in rows[..i] && IsReady(db.View(), id)
      {
        assert rows[..i + 1] == rows[..i] + [rows[i]];
        if db.tasks[rows[i]].owner == None {
          var unsatisfied := CheckDependencies(rows[i]);
          if |unsatisfied| == 0 { ready := ready + [rows[i]]; }
        }
      }
      assert rows[..|rows|] == rows;
    }

    method TransitionTask(id: TaskId, agent: AgentId, to: TaskState) returns (r: Result<()>)
      modifies db
      ensures match Transition(old(db.View()), id, agent, to)
        case Ok(s) => r == Ok(()) && db.View() == s
        case Err(c) => r == Err(c) && db.View() == old(db.View())
    {
      var t :- Owned(db.View(), id, agent);
      if t.state == to { return Ok(()); }
      if !CanTransition(t.state, to) { return Err(ILLEGAL_TRANSITION); }
      if to == WORKING {
        var unsatisfied := CheckDependencies(id);
        if |unsatisfied| > 0 { return Err(DEPENDENCY_UNSATISFIED); }
      }
      r := db.Update(id, Moved(t, to));
    }

    method RecoverTask(id: TaskId, agent: AgentId, nextAttempt: nat, e: Evidence) returns (r: Result<()>)
      modifies db
      ensures match BeginRecovery(old(db.View()), id, agent, nextAttempt, e)
        case Ok(s) => r == Ok(()) && db.View() == s
        case Err(c) => r == Err(c) && db.View() == old(db.View())
    {
      var t :- Owned(db.View(), id, agent);
      var refusal := NotRecoverable(t, e);
      if refusal.Some? { return Err(refusal.value); }
      if nextAttempt != t.attempt + 1 { return Err(ILLEGAL_TRANSITION); }
      var unsatisfied := CheckDependencies(id);
      if |unsatisfied| > 0 { return Err(DEPENDENCY_UNSATISFIED); }
      if !e.lineage { return Err(INVALID_ARGUMENT); }
      r := db.Update(id, Moved(t, WORKING).(attempt := nextAttempt));
    }

    /** The loop over the path of `finalizeDeliverable`. */
    method FinalizeTask(id: TaskId, agent: AgentId, to: TaskState) returns (r: Result<()>)
      modifies db
      ensures match Finalize(old(db.View()), id, agent, to)
        case Ok(s) => r == Ok(()) && db.View() == s
        case Err(c) => r == Err(c) && db.View() == old(db.View())
    {
      var t :- Owned(db.View(), id, agent);
      if t.state == to { return Ok(()); }
      var path := [];
      if to == DONE && t.state == WORKING { path := path + [VERIFYING]; }
      path := path + [to];
      ghost var before := db.View();
      var current := t;
      for i := 0 to |path|
        invariant id in db.tasks && db.tasks[id] == current
        invariant i == 0 ==> db.View() == before && current == t
        invariant i == 1 && |path| == 2 ==> Hop(before, id, VERIFYING) == Ok(db.View())
        invariant i == |path| ==> Finalize(before, id, agent, to) == Ok(db.View())
      {
        if !CanTransition(current.state, path[i]) { return Err(ILLEGAL_TRANSITION); }
        current := Moved(current, path[i]);
        var updated := db.Update(id, current);
      }
      return Ok(());
    }

    method BlockTask(id: TaskId, agent: AgentId) returns (r: Result<()>)
      modifies db
      ensures match Block(old(db.View()), id, agent)
        case Ok(s) => r == Ok(()) && db.View() == s
        case Err(c) => r == Err(c) && db.View() == old(db.View())
    {
      var t :- Owned(db.View(), id, agent);
      if !CanTransition(t.state, BLOCKED) { return Err(ILLEGAL_TRANSITION); }
      r := db.Update(id, Moved(t, BLOCKED));
    }

    method UnblockTask(id: TaskId, agent: AgentId) returns (r: Result<()>)
      modifies db
      ensures match Unblock(old(db.View()), id, agent)
        case Ok(s) => r == Ok(()) && db.View() == s
        case Err(c) => r == Err(c) && db.View() == old(db.View())
    {
      var t :- Owned(db.View(), id, agent);
      if t.state != BLOCKED { return Ok(()); }
      r := db.Update(id, Moved(t, WORKING));
    }

    method RetryTask(id: TaskId, maxAttempts: int) returns (r: Result<()>)
      modifies db
      ensures match Retry(old(db.View()), id, maxAttempts)
        case Ok(s) => r == Ok(()) && db.View() == s
        case Err(c) => r == Err(c) && db.View() == old(db.View())
    {
      if id !in db.tasks { return Err(NOT_FOUND); }
      var t := db.tasks[id];
      if t.state != FAILED { return Err(ILLEGAL_TRANSITION); }
      if t.attempt + 1 >= maxAttempts { return Err(ILLEGAL_TRANSITION); }
      r := db.Update(id, Moved(t, PENDING).(owner := None, attempt := t.attempt + 1));
    }
  }
}
