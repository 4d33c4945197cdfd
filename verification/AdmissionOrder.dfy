/** First-in first-out admission over whole runs (shared/control-plane/src/execution-service.ts). */
module AdmissionOrder {
  import opened Bridge
  import opened ControlStore
  import opened Protocol
  import opened ProtocolRows
  import opened ProtocolInvariant
  import opened ProtocolSafety
  import LM = LeaseManager
  import ES = ExecutionService
  import WriteScopes

  /** This step turned the queued execution of `u` into a running one. */
  ghost predicate Admits(c: System, step: Step, c': System, u: TaskId) {
    && step == Admit(u)
    && u in c.store.executions && c.store.executions[u].phase == QUEUED
    && u in c'.store.executions && c'.store.executions[u].phase == RUNNING
  }

  /** Whoever still waits after an admission has a later ticket than the admitted execution. */
  lemma AdmittedIsFirst(c: System, c': System, u: TaskId, t: TaskId)
    requires Inv(c) && Next(c, Admit(u)) == Ok(c') && Admits(c, Admit(u), c', u)
    requires ES.Waiting(c'.store, t, c.store.executions[u].agent)
    ensures c.store.executions[u].ticket < c'.store.executions[t].ticket
  {
    hide Next, ES.Reconcile, ES.SlotFree, Inv;
    var agent := c.store.executions[u].agent;
    StepAdmits(c, u, c');
    ReconcileKeepsLiving(c.store, Some(agent), c.dead, u);
    ReconcileStep(c, Some(agent));
    var r := ES.Reconcile(c.store, Some(agent), c.dead);
    TicketsDiffer(c.(store := r));
    assert ES.Waiting(r, t, agent);
  }

  lemma TicketsDiffer(c: System)
    requires Inv(c)
    ensures ES.DistinctTickets(c.store)
  {
  }

  // ---------------------------------------------------------------- generations and tickets

  /** A step forgets no generation. */
  lemma GenerationsStay(c: System, step: Step, c': System)
    requires Next(c, step) == Ok(c')
    ensures c.stages.Keys <= c'.stages.Keys
  {
    if ChangesRow(step) {
      hide Next, RowBecomes, OtherRowsStay;
      StepWritesOneRow(c, step, c');
    } else if KeepsRows(step) {
      hide Next;
      StepKeepsRows(c, step, c');
    } else if step.Enqueue? || step.PrepareRecovery? {
      hide Next;
      StepQueuesRow(c, step, c');
    } else if step.Admit? {
      hide Next, ES.Reconcile, ES.SlotFree, ES.Head;
      StepAdmits(c, step.t, c');
    }
  }

  /** The waiting row `e` of task `t`. */
  ghost predicate WaitsAs(s: Store, t: TaskId, e: Execution) {
    t in s.executions && s.executions[t] == e && e.phase == QUEUED && !e.cancelled
  }

  /** Nothing re-queues: a waiting row whose generation is not new was the same waiting row before the step. */
  lemma WaitedBefore(c: System, step: Step, c': System, t: TaskId, e: Execution)
    requires Inv(c) && Next(c, step) == Ok(c') && WaitsAs(c'.store, t, e) && e.generation in c.stages
    ensures WaitsAs(c.store, t, e)
  {
    hide Next, Inv, WaitsAs;
    if step.Reconcile? {
      StepReconciles(c, step.agent, c');
      ReconcileWaits(c.store, step.agent, c.dead, t, e);
    } else if step.Admit? {
      AdmitWaits(c, step.t, c', t, e);
    } else if step.Enqueue? || step.PrepareRecovery? {
      QueueWaits(c, step, c', t, e);
    } else if KeepsRows(step) {
      StepKeepsRows(c, step, c');
      SameWaits(c.store, c'.store, t, e);
    } else {
      OneRowWaits(c, step, c', t, e);
    }
  }

  lemma SameWaits(s: Store, s': Store, t: TaskId, e: Execution)
    requires WaitsAs(s', t, e) && s'.executions == s.executions
    ensures WaitsAs(s, t, e)
  {
  }

  lemma ReconcileWaits(s: Store, agent: Option<AgentId>, dead: set<Pid>, t: TaskId, e: Execution)
    requires WaitsAs(ES.Reconcile(s, agent, dead), t, e)
    ensures WaitsAs(s, t, e)
  {
    hide ES.ReconciledLease;
  }

  lemma AdmitWaits(c: System, u: TaskId, c': System, t: TaskId, e: Execution)
    requires Next(c, Admit(u)) == Ok(c') && WaitsAs(c'.store, t, e)
    ensures WaitsAs(c.store, t, e)
  {
    hide Next, ES.Reconcile, ES.SlotFree, ES.Head;
    StepAdmits(c, u, c');
    var agent := Some(c.store.executions[u].agent);
    assert WaitsAs(ES.Reconcile(c.store, agent, c.dead), t, e);
    ReconcileWaits(c.store, agent, c.dead, t, e);
  }

  lemma QueueWaits(c: System, step: Step, c': System, t: TaskId, e: Execution)
    requires Next(c, step) == Ok(c') && WaitsAs(c'.store, t, e) && e.generation in c.stages
      && (step.Enqueue? || step.PrepareRecovery?)
    ensures WaitsAs(c.store, t, e)
  {
    hide Next;
    StepQueuesRow(c, step, c');
  }

  /** A step that leaves a row waiting leaves it as it is. */
  lemma RowWaits(c: System, step: Step, e: Execution, e': Execution)
    requires ChangesRow(step) && RowBecomes(c, step, e, e') && e'.phase == QUEUED && !e'.cancelled
    requires e.phase == QUEUED ==> e.stopConfirmed
    ensures e == e'
  {
    hide At;
  }

  lemma OneRowWaits(c: System, step: Step, c': System, t: TaskId, e: Execution)
    requires Inv(c) && Next(c, step) == Ok(c') && WaitsAs(c'.store, t, e) && ChangesRow(step)
    ensures WaitsAs(c.store, t, e)
  {
    hide Next, Inv, RowBecomes;
    StepWritesOneRow(c, step, c');
    if t == step.t {
      if c.store.executions[t].phase == QUEUED { WaitsWithEvidence(c, t); }
      RowWaits(c, step, c.store.executions[t], e);
    }
  }

  /** A row that waits has its stop evidence. */
  lemma WaitsWithEvidence(c: System, t: TaskId)
    requires Inv(c) && t in c.store.executions && c.store.executions[t].phase == QUEUED
    ensures c.store.executions[t].stopConfirmed
  {
  }

  /** A row waiting at both ends of a stretch of a run waits throughout it. */
  lemma {:induction false} WaitsThroughout(states: seq<System>, steps: seq<Step>, i: nat, m: nat, j: nat, t: TaskId,
      e: Execution)
    requires Run(states, steps) && i <= m <= j < |states|
    requires WaitsAs(states[i].store, t, e) && WaitsAs(states[j].store, t, e)
    ensures WaitsAs(states[m].store, t, e)
    decreases j - m
  {
    hide Next, Inv, WaitsAs;
    if m < j {
      WaitsThroughout(states, steps, i, m + 1, j, t, e);
      GenerationKnown(states, steps, i, m, t, e);
      RunKeepsInv(states, steps, m);
      assert Next(states[m], steps[m]) == Ok(states[m + 1]);
      WaitedBefore(states[m], steps[m], states[m + 1], t, e);
    }
  }

  lemma {:induction false} GenerationKnown(states: seq<System>, steps: seq<Step>, i: nat, m: nat, t: TaskId,
      e: Execution)
    requires Run(states, steps) && i <= m < |states| && WaitsAs(states[i].store, t, e)
    ensures e.generation in states[m].stages
    decreases m - i
  {
    hide Next, Rows, Exclusive;
    RunKeepsInv(states, steps, i);
    if i < m {
      GenerationKnown(states, steps, i, m - 1, t, e);
      assert Next(states[m - 1], steps[m - 1]) == Ok(states[m - 1 + 1]);
      GenerationsStay(states[m - 1], steps[m - 1], states[m]);
    }
  }

  /**
   * No overtaking: while an execution waits uncancelled in the queue, no execution of the same agent with a
   * later ticket is admitted.
   */
  lemma NoOvertaking(states: seq<System>, steps: seq<Step>, i: nat, m: nat, j: nat, t: TaskId, e: Execution, u: TaskId)
    requires Run(states, steps) && i <= m < j < |states|
    requires WaitsAs(states[i].store, t, e) && WaitsAs(states[j].store, t, e)
    requires Admits(states[m], steps[m], states[m + 1], u) && states[m].store.executions[u].agent == e.agent
    ensures states[m].store.executions[u].ticket < e.ticket
  {
    hide Next, Inv;
    WaitsThroughout(states, steps, i, m + 1, j, t, e);
    RunKeepsInv(states, steps, m);
    assert Next(states[m], steps[m]) == Ok(states[m + 1]);
    AdmittedIsFirst(states[m], states[m + 1], u, t);
  }

  /** The ticket of a row stays, or the row is replaced by one with a ticket above every ticket so far. */
  ghost predicate TicketGrown(s: Store, s': Store, t: TaskId)
    requires t in s.executions
  {
    && t in s'.executions
    && (s'.executions[t].ticket == s.executions[t].ticket
        || forall u :: u in s.executions ==> s.executions[u].ticket < s'.executions[t].ticket)
  }

  lemma AdmitTickets(c: System, step: Step, c': System, t: TaskId)
    requires Next(c, step) == Ok(c') && t in c.store.executions && (step.Reconcile? || step.Admit?)
    ensures TicketGrown(c.store, c'.store, t)
  {
    hide ES.ReconciledLease, ES.SlotFree, ES.Head, ES.Orphaned;
    if step.Admit? {
      StepAdmits(c, step.t, c');
      hide Next;
    }
  }

  lemma OneRowTickets(c: System, step: Step, c': System, t: TaskId)
    requires Next(c, step) == Ok(c') && t in c.store.executions && ChangesRow(step)
    ensures TicketGrown(c.store, c'.store, t)
  {
    hide Next, RowBecomes;
    StepWritesOneRow(c, step, c');
    if step.t == t { RowKeepsIdentity(c, step, c.store.executions[t], c'.store.executions[t]); }
  }

  lemma QueueTickets(c: System, step: Step, c': System, t: TaskId)
    requires Next(c, step) == Ok(c') && t in c.store.executions && (step.Enqueue? || step.PrepareRecovery?)
    ensures TicketGrown(c.store, c'.store, t)
  {
    StepQueuesRow(c, step, c');
    hide Next;
  }

  /** Tickets are never reused: the highest ticket never falls although rows are replaced task by task. */
  lemma TicketsGrow(c: System, step: Step, c': System)
    requires Next(c, step) == Ok(c')
    ensures forall t :: t in c.store.executions ==> TicketGrown(c.store, c'.store, t)
    ensures ES.MaxTicket(c.store.executions) <= ES.MaxTicket(c'.store.executions)
  {
    hide Next, TicketGrown;
    forall t | t in c.store.executions ensures TicketGrown(c.store, c'.store, t) {
      if step.Enqueue? || step.PrepareRecovery? {
        QueueTickets(c, step, c', t);
      } else if ChangesRow(step) {
        OneRowTickets(c, step, c', t);
      } else if KeepsRows(step) {
        StepKeepsRows(c, step, c');
        SameTicket(c.store, c'.store, t);
      } else {
        AdmitTickets(c, step, c', t);
      }
    }
    MaxTicketGrows(c.store, c'.store);
  }

  lemma SameTicket(s: Store, s': Store, t: TaskId)
    requires t in s.executions && s'.executions == s.executions
    ensures TicketGrown(s, s', t)
  {
  }

  lemma MaxTicketGrows(s: Store, s': Store)
    requires forall t :: t in s.executions ==> TicketGrown(s, s', t)
    ensures ES.MaxTicket(s.executions) <= ES.MaxTicket(s'.executions)
  {
    var m := ES.MaxTicket(s.executions);
    if m > 0 {
      var t :| t in s.executions && s.executions[t].ticket == m;
      assert TicketGrown(s, s', t);
    }
  }

  /**
   * The head is admitted: if every earlier waiting execution is an orphan of a dead process and the agent has a
   * free slot under every limit, the next attempt of a living executor succeeds.
   */
  lemma HeadIsAdmitted(c: System, t: TaskId)
    requires Inv(c) && At(c, t, {Preparing})
    requires var e := c.store.executions[t];
      e.phase == QUEUED && !e.cancelled && ES.SlotFree(c.store, e.maxConcurrency, e.agent)
    requires forall u | ES.Waiting(c.store, u, c.store.executions[t].agent)
      && c.store.executions[u].ticket < c.store.executions[t].ticket
      :: c.store.executions[u].pid != 0 && c.store.executions[u].pid in c.dead
    ensures Next(c, Admit(t)).Ok? && Admits(c, Admit(t), Next(c, Admit(t)).value, t)
  {
    hide Inv, ES.Reconcile, ES.SlotFree, ES.Head;
    var s, e := c.store, c.store.executions[t];
    var r := ES.Reconcile(s, Some(e.agent), c.dead);
    ReconcileKeepsLiving(s, Some(e.agent), c.dead, t);
    ReconcileFreesSlots(s, e.agent, e.maxConcurrency, c.dead);
    OrphansLeaveQueue(s, t, c.dead);
  }

  /** Reconciliation takes no slot and keeps every limit. */
  lemma ReconcileFreesSlots(s: Store, agent: AgentId, limit: int, dead: set<Pid>)
    requires ES.SlotFree(s, limit, agent)
    ensures ES.SlotFree(ES.Reconcile(s, Some(agent), dead), limit, agent)
  {
    hide ES.ReconciledLease;
    var r := ES.Reconcile(s, Some(agent), dead);
    assert ES.Occupied(r, agent) <= ES.Occupied(s, agent);
    SubsetSize(ES.Occupied(r, agent), ES.Occupied(s, agent));
    assert forall u :: ES.Unstopped(r, u, agent) ==>
      ES.Unstopped(s, u, agent) && s.executions[u].maxConcurrency == r.executions[u].maxConcurrency;
  }

  /** With only orphans before it, a living waiting execution is the head once they are reconciled. */
  lemma OrphansLeaveQueue(s: Store, t: TaskId, dead: set<Pid>)
    requires t in s.executions && ES.Waiting(s, t, s.executions[t].agent) && s.executions[t].pid !in dead
    requires forall u | ES.Waiting(s, u, s.executions[t].agent) && s.executions[u].ticket < s.executions[t].ticket
      :: s.executions[u].pid != 0 && s.executions[u].pid in dead
    ensures ES.Head(ES.Reconcile(s, Some(s.executions[t].agent), dead), t, s.executions[t].agent)
  {
    hide ES.ReconciledLease;
    var e := s.executions[t];
    var r := ES.Reconcile(s, Some(e.agent), dead);
    forall u | ES.Waiting(r, u, e.agent) ensures e.ticket <= r.executions[u].ticket {
      assert ES.Waiting(s, u, e.agent) && s.executions[u].ticket == r.executions[u].ticket;
    }
  }
}
