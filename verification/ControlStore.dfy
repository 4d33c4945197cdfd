/**
 * The rows of the shared control plane (shared/control-plane/src/store/state-store.ts) that leases and
 * executions read and write. A `Store` is the value of the database; `ControlStore` is the database that
 * the services update in place.
 */
module ControlStore {
  import opened Bridge
  import opened WriteScopes

  type TaskId = string
  type LeaseId = string
  type AgentId = string
  type Generation = string
  type Pid = nat

  datatype LeaseState = HELD | QUARANTINED | RELEASED | EXPIRED

  datatype Lease = Lease(
    task: TaskId, holder: AgentId, scope: seq<string>, state: LeaseState, acquiredAt: int, expiresAt: int)

  datatype Phase = QUEUED | RUNNING | STOPPED | QUARANTINED

  /** `stopConfirmed` is `runtime_stop_confirmed === true`; `cancelled` is `cancel_requested_at !== null`. */
  datatype Execution = Execution(
    attempt: nat, agent: AgentId, generation: Generation, phase: Phase, pid: Pid, maxConcurrency: int,
    ticket: int, stopConfirmed: bool, lease: Option<LeaseId>, cancelled: bool)

  /** The part of a task that execution callbacks look at. */
  datatype TaskView = TaskView(attempt: nat, owner: Option<AgentId>, terminal: bool)

  datatype Store = Store(
    leases: map<LeaseId, Lease>, executions: map<TaskId, Execution>, tasks: map<TaskId, TaskView>)

  /** The execution of the lease's task names this lease and has no stop evidence. */
  predicate Fenced(s: Store, id: LeaseId)
    requires id in s.leases
  {
    var t := s.leases[id].task;
    t in s.executions && s.executions[t].lease == Some(id) && !s.executions[t].stopConfirmed
  }

  /** `listHeldLeases` selects these states. */
  predicate Listed(l: Lease) {
    l.state == HELD || l.state == LeaseState.QUARANTINED
  }

  function PutLease(s: Store, id: LeaseId, l: Lease): Store {
    s.(leases := s.leases[id := l])
  }

  function PutExecution(s: Store, t: TaskId, e: Execution): Store {
    s.(executions := s.executions[t := e])
  }

  class Database {
    var leases: map<LeaseId, Lease>
    var executions: map<TaskId, Execution>
    var tasks: map<TaskId, TaskView>

    function View(): Store
      reads this
    {
      Store(leases, executions, tasks)
    }

    constructor ()
      ensures View() == Store(map[], map[], map[])
    {
      leases, executions, tasks := map[], map[], map[];
    }
  }
}
