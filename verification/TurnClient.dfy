/**
 * The turn lifecycle of the Codex App Server client (codex/codex-side/src/codex-app-server-client.ts:451-679
 * and 906-1013).
 *
 * A call of `runTurn` is suspended between events; its local variables and the point where it waits are kept in
 * `runs`. Each event is first defined on the value of the client; the methods of the class update the maps in
 * place. A promise settles in one step and the call that awaits it continues in a later one. `terminal` and
 * `reports` record history: the terminal completions that arrived, and the callbacks that were made.
 */
module TurnClient {
  import opened Bridge

  type ThreadId = string
  type TurnId = string
  type RunId = nat

  /** The terminal statuses; a notification with any other status is ignored. */
  datatype Status = COMPLETED | FAILED | INTERRUPTED

  datatype Completion = Completion(thread: ThreadId, status: Status)

  datatype Stage =
    | Announcing                     // awaits the callback for "running"
    | Requesting                     // awaits the response to turn/start
    | Responded(answer: TurnId)      // that response has arrived
    | Waiting(strict: bool, graceTimer: bool) // awaits waitForTurn; the timer for missing usage may be running
    | Resolved(status: Status)       // waitForTurn has resolved
    | Rejected(confirmed: bool)      // an awaited promise was rejected, with runtime_stop_confirmed or without
    | Interrupting                   // awaits interruptAndConfirm
    | Answered(confirmed: bool)      // interruptAndConfirm has resolved
    | Reporting                      // awaits the callback for "stopped" or "unconfirmed"
    | Returned

  /** One call of `runTurn`; `requested` says that turn/start has been sent. */
  datatype Run = Run(thread: ThreadId, turn: Option<TurnId>, correlated: Option<TurnId>, requested: bool, stopped: bool,
    stage: Stage)

  datatype TurnWaiter = TurnWaiter(thread: ThreadId, run: RunId, strict: bool)

  datatype StopOwner = ByRun(run: RunId) | Late

  datatype StopWaiter = StopWaiter(thread: ThreadId, owner: StopOwner)

  /** A callback with "stopped" for a thread, and the turn it speaks about, if the client knows one. */
  datatype Report = Report(thread: ThreadId, turn: Option<TurnId>, requested: bool)

  datatype Client = Client(
    active: map<ThreadId, Option<TurnId>>, unconfirmed: set<ThreadId>, completed: map<TurnId, Completion>,
    usage: map<TurnId, ThreadId>, turnWaiters: map<TurnId, TurnWaiter>, stopWaiters: map<TurnId, StopWaiter>,
    retired: seq<TurnId>, failed: bool, runs: map<RunId, Run>,
    terminal: set<(ThreadId, TurnId)>, reports: seq<Report>)

  const RETIRED_LIMIT: nat := 1024

  // ---------------------------------------------------------------- waiters

  function RemoveTurnWaiter(c: Client, turn: TurnId): Client {
    c.(turnWaiters := c.turnWaiters - {turn}, completed := c.completed - {turn}, usage := c.usage - {turn})
  }

  function SetStage(c: Client, r: RunId, stage: Stage): Client
    requires r in c.runs
  {
    c.(runs := c.runs[r := c.runs[r].(stage := stage)])
  }

  /** Settling a promise that has been settled already has no effect. */
  function SettleWait(c: Client, r: RunId, stage: Stage): Client {
    if r in c.runs && c.runs[r].stage.Waiting? then SetStage(c, r, stage) else c
  }

  function SettleStop(c: Client, r: RunId, confirmed: bool): Client {
    if r in c.runs && c.runs[r].stage.Interrupting? then SetStage(c, r, Answered(confirmed)) else c
  }

  /** `maybeFinishTurn`. */
  function MaybeFinish(c: Client, turn: TurnId): Client {
    if turn !in c.turnWaiters || turn !in c.completed || c.completed[turn].thread != c.turnWaiters[turn].thread then c
    else
      var w, status := c.turnWaiters[turn], c.completed[turn].status;
      if status == FAILED || status == INTERRUPTED then SettleWait(RemoveTurnWaiter(c, turn), w.run, Rejected(true))
      else if turn in c.usage && c.usage[turn] != w.thread then c
      else if turn in c.usage then SettleWait(RemoveTurnWaiter(c, turn), w.run, Resolved(COMPLETED))
      else if w.strict then c
      else SettleWait(c, w.run, Waiting(w.strict, true))
  }

  /** The set of retired turns keeps the order of insertion and drops the oldest beyond its limit. */
  function Retire(c: Client, turn: TurnId): Client {
    var kept := if turn in c.retired then c.retired else c.retired + [turn];
    RemoveTurnWaiter(c, turn).(retired := if |kept| > RETIRED_LIMIT then kept[1..] else kept)
  }

  /** Drop the thread and all that is kept for it. */
  function Free(c: Client, thread: ThreadId, turn: Option<TurnId>): Client {
    var freed := c.(active := c.active - {thread}, unconfirmed := c.unconfirmed - {thread});
    if turn.Some? then Retire(freed, turn.value) else freed
  }

  function ActiveTurn(c: Client, thread: ThreadId): Option<TurnId> {
    if thread in c.active then c.active[thread] else None
  }

  function AddReport(c: Client, report: Report): Client {
    c.(reports := c.reports + [report])
  }

  /** `interruptAndConfirm` answers at once when the completion is already known. */
  predicate KnownStopped(c: Client, thread: ThreadId, turn: TurnId) {
    turn in c.completed && c.completed[turn].thread == thread
  }

  // ---------------------------------------------------------------- the calls of runTurn

  /** The turn a failed call would interrupt. */
  function Correlated(c: Client, run: Run): Option<TurnId> {
    if run.turn.Some? then run.turn else ActiveTurn(c, run.thread)
  }

  function Enter(c: Client, r: RunId, thread: ThreadId): Client {
    c.(active := c.active[thread := None], runs := c.runs[r := Run(thread, None, None, false, false, Announcing)])
  }

  /** The continuation with a turn id: register the wait, unless the connection failed or the caller aborted. */
  function BeginWait(c: Client, r: RunId, turn: TurnId, strict: bool, aborted: bool): Client
    requires r in c.runs
  {
    var run := c.runs[r];
    var fails := c.failed || aborted;
    var stage := if fails then Rejected(false) else Waiting(strict, false);
    var c1 := c.(active := c.active[run.thread := Some(turn)],
      runs := c.runs[r := run.(turn := Some(turn), stage := stage)]);
    if fails then c1
    else MaybeFinish(c1.(turnWaiters := c.turnWaiters[turn := TurnWaiter(run.thread, r, strict)]), turn)
  }

  /** The catch block decided that the runtime stopped: remember the turn and call back. */
  function DeclareStopped(c: Client, r: RunId): Client
    requires r in c.runs
  {
    var run := c.runs[r];
    var turn := Correlated(c, run);
    AddReport(c.(runs := c.runs[r := run.(stopped := true, correlated := turn, stage := Reporting)]),
      Report(run.thread, turn, run.requested))
  }

  function DeclareUnconfirmed(c: Client, r: RunId): Client
    requires r in c.runs
  {
    var run := c.runs[r];
    c.(unconfirmed := c.unconfirmed + {run.thread}, runs := c.runs[r := run.(stopped := false, stage := Reporting)])
  }

  /** The catch block without stop evidence: interrupt the correlated turn, if any, and wait for its completion. */
  function Interrupt(c: Client, r: RunId): Client
    requires r in c.runs
  {
    var run := c.runs[r];
    var turn := Correlated(c, run);
    if turn.None? then DeclareUnconfirmed(c, r)
    else if KnownStopped(c, run.thread, turn.value) then SetStage(c, r, Answered(true))
    else SetStage(c, r, Interrupting).(stopWaiters := c.stopWaiters[turn.value := StopWaiter(run.thread, ByRun(r))])
  }

  /** The finally block. */
  function Finally(c: Client, r: RunId): Client
    requires r in c.runs
  {
    var run := c.runs[r];
    var c1 := SetStage(c, r, Returned);
    if run.stopped then Free(c1, run.thread, Correlated(c, run)) else c1
  }

  /** After waitForTurn resolved: a turn that completed and whose answer can be read returns, another throws. */
  function AfterResolved(c: Client, r: RunId, throws: bool): Client
    requires r in c.runs
  {
    var run := c.runs[r];
    if throws then DeclareStopped(c, r)
    else Finally(c.(runs := c.runs[r := run.(stopped := true, correlated := Correlated(c, run))]), r)
  }

  // ---------------------------------------------------------------- notifications

  function OnStarted(c: Client, thread: ThreadId, turn: TurnId): Client {
    if thread !in c.active || turn in c.retired then c
    else if c.active[thread].Some? && c.active[thread] != Some(turn) then c
    else
      var c1 := c.(active := c.active[thread := Some(turn)]);
      if thread !in c.unconfirmed then c1
      else if KnownStopped(c, thread, turn) then AddReport(c1, Report(thread, Some(turn), true))
      else c1.(stopWaiters := c.stopWaiters[turn := StopWaiter(thread, Late)])
  }

  /** A late waiter calls back for its thread, if a callback is still registered. */
  function AnswerStop(c: Client, thread: ThreadId, turn: TurnId): Client {
    if turn !in c.stopWaiters || c.stopWaiters[turn].thread != thread then c
    else
      var c1 := c.(stopWaiters := c.stopWaiters - {turn});
      match c.stopWaiters[turn].owner
      case ByRun(r) => SettleStop(c1, r, true)
      case Late => if thread in c.active then AddReport(c1, Report(thread, c.active[thread], true)) else c1
  }

  function OnCompleted(c0: Client, thread: ThreadId, turn: TurnId, status: Status): Client {
    var c := c0.(terminal := c0.terminal + {(thread, turn)});
    if turn in c.retired then c
    else
      var current := thread in c.active && c.active[thread] == Some(turn);
      var c1 := if current then AddReport(c, Report(thread, Some(turn), true)) else c;
      if current && thread in c.unconfirmed then Free(c1, thread, Some(turn))
      else
        var c2 := AnswerStop(c1, thread, turn);
        MaybeFinish(c2.(completed := c2.completed[turn := Completion(thread, status)]), turn)
  }

  function OnUsage(c: Client, thread: ThreadId, turn: TurnId): Client {
    if turn in c.retired then c else MaybeFinish(c.(usage := c.usage[turn := thread]), turn)
  }

  /** Abort and timeout handlers of waitForTurn; a completion that has arrived counts as evidence. */
  function GiveUp(c: Client, r: RunId, timedOut: bool): Client
    requires r in c.runs && c.runs[r].turn.Some? && c.runs[r].stage.Waiting?
  {
    var run := c.runs[r];
    var turn := run.turn.value;
    var known := KnownStopped(c, run.thread, turn);
    SettleWait(RemoveTurnWaiter(c, turn), r,
      if timedOut && known && !run.stage.strict
        && c.completed[turn].status == COMPLETED then Resolved(COMPLETED) else Rejected(known))
  }

  function RejectedRun(run: Run, waited: set<RunId>, stopping: set<RunId>, r: RunId): Run {
    if run.stage.Requesting? then run.(stage := Rejected(false))
    else if run.stage.Waiting? && r in waited then run.(stage := Rejected(false))
    else if run.stage.Interrupting? && r in stopping then run.(stage := Answered(false))
    else run
  }

  function RejectedRuns(runs: map<RunId, Run>, waited: set<RunId>, stopping: set<RunId>): map<RunId, Run> {
    map r | r in runs :: RejectedRun(runs[r], waited, stopping, r)
  }

  function WaitedRuns(waiters: map<TurnId, TurnWaiter>): set<RunId> {
    set t | t in waiters :: waiters[t].run
  }

  function StoppingRuns(waiters: map<TurnId, StopWaiter>): set<RunId> {
    set t | t in waiters && waiters[t].owner.ByRun? :: waiters[t].owner.run
  }

  /** `rejectAll`: every pending request and every waiter is settled without evidence. */
  function RejectAll(c: Client): Client {
    c.(completed := c.completed - c.turnWaiters.Keys, usage := c.usage - c.turnWaiters.Keys,
       turnWaiters := map[], stopWaiters := map[],
       runs := RejectedRuns(c.runs, WaitedRuns(c.turnWaiters), StoppingRuns(c.stopWaiters)))
  }

  // ---------------------------------------------------------------- events

  datatype Event =
    | Call(run: RunId, thread: ThreadId)
    | AnnounceDone(run: RunId)
    | AnnounceFailed(run: RunId, confirmed: bool)
    | StartAnswered(run: RunId, turn: TurnId)
    | StartFailed(run: RunId)
    | ContinueStart(run: RunId, strict: bool, aborted: bool)
    | ContinueResolved(run: RunId, throws: bool)
    | ContinueRejected(run: RunId)
    | ContinueStopped(run: RunId)
    | CallbackDone(run: RunId)
    | WaitAborted(run: RunId)
    | WaitTimedOut(run: RunId)
    | GraceOver(run: RunId)
    | StopTimedOut(run: RunId)
    | LateTimedOut(turn: TurnId)
    | TurnStarted(thread: ThreadId, turn: TurnId, envelope: Option<TurnId>)
    | TurnCompleted(thread: ThreadId, turn: TurnId, status: Status, envelope: Option<TurnId>)
    | UsageUpdated(thread: ThreadId, turn: TurnId)
    | ConnectionLost
    | ProtocolFailed

  predicate Ignored(c: Client, envelope: Option<TurnId>) {
    envelope.Some? && envelope.value in c.retired
  }

  /** When an event can occur. */
  predicate Enabled(c: Client, e: Event) {
    match e
    case Call(r, thread) => r !in c.runs && thread !in c.active
    case AnnounceDone(r) => r in c.runs && c.runs[r].stage.Announcing?
    case AnnounceFailed(r, confirmed) => r in c.runs && c.runs[r].stage.Announcing?
    case StartAnswered(r, turn) => r in c.runs && c.runs[r].stage.Requesting?
    case StartFailed(r) => r in c.runs && (c.runs[r].stage.Requesting? || c.runs[r].stage.Responded?)
    case ContinueStart(r, strict, aborted) => r in c.runs && c.runs[r].stage.Responded?
    case ContinueResolved(r, throws) => r in c.runs && c.runs[r].stage.Resolved?
      && (c.runs[r].stage.status != COMPLETED ==> throws)
    case ContinueRejected(r) => r in c.runs && c.runs[r].stage.Rejected?
    case ContinueStopped(r) => r in c.runs && c.runs[r].stage.Answered?
    case CallbackDone(r) => r in c.runs && c.runs[r].stage.Reporting?
    case WaitAborted(r) => r in c.runs && c.runs[r].stage.Waiting? && c.runs[r].turn.Some?
    case WaitTimedOut(r) => r in c.runs && c.runs[r].stage.Waiting? && c.runs[r].turn.Some?
    case GraceOver(r) => r in c.runs && c.runs[r].stage.Waiting? && c.runs[r].stage.graceTimer && c.runs[r].turn.Some?
    case StopTimedOut(r) => r in c.runs && c.runs[r].stage.Interrupting?
    case _ => true
  }

  function Handle(c: Client, e: Event): Client
    requires Enabled(c, e)
  {
    match e
    case Call(r, thread) => Enter(c, r, thread)
    case AnnounceDone(r) => c.(runs := c.runs[r := c.runs[r].(requested := true, stage := Requesting)])
    case AnnounceFailed(r, confirmed) => SetStage(c, r, Rejected(confirmed))
    case StartAnswered(r, turn) => SetStage(c, r, Responded(turn))
    case StartFailed(r) => SetStage(c, r, Rejected(false))
    case ContinueStart(r, strict, aborted) => BeginWait(c, r, c.runs[r].stage.answer, strict, aborted)
    case ContinueResolved(r, throws) => AfterResolved(c, r, throws)
    case ContinueRejected(r) => if c.runs[r].stage.confirmed then DeclareStopped(c, r) else Interrupt(c, r)
    case ContinueStopped(r) => if c.runs[r].stage.confirmed then DeclareStopped(c, r) else DeclareUnconfirmed(c, r)
    case CallbackDone(r) => Finally(c, r)
    case WaitAborted(r) => GiveUp(c, r, false)
    case WaitTimedOut(r) => GiveUp(c, r, true)
    case GraceOver(r) => SettleWait(RemoveTurnWaiter(c, c.runs[r].turn.value), r, Resolved(COMPLETED))
    case StopTimedOut(r) =>
      var turn := Correlated(c, c.runs[r]);
      SettleStop(if turn.Some? then c.(stopWaiters := c.stopWaiters - {turn.value}) else c, r, false)
    case LateTimedOut(turn) => c.(stopWaiters := c.stopWaiters - {turn})
    case TurnStarted(thread, turn, envelope) => if Ignored(c, envelope) then c else OnStarted(c, thread, turn)
    case TurnCompleted(thread, turn, status, envelope) =>
      if Ignored(c, envelope) then c.(terminal := c.terminal + {(thread, turn)})
        else OnCompleted(c, thread, turn, status)
    case UsageUpdated(thread, turn) => OnUsage(c, thread, turn)
    case ConnectionLost => RejectAll(c)
    case ProtocolFailed => RejectAll(c).(failed := true)
  }

  function Start(): Client {
    Client(map[], {}, map[], map[], map[], map[], [], false, map[], {}, [])
  }

  ghost predicate Steps(c: Client, e: Event, c': Client) {
    Enabled(c, e) && c' == Handle(c, e)
  }

  ghost predicate History(states: seq<Client>, events: seq<Event>) {
    && |states| == |events| + 1
    && states[0] == Start()
    && forall i :: 0 <= i < |events| ==> Steps(states[i], events[i], states[i + 1])
  }

  // ---------------------------------------------------------------- the maps of the client, changed in place

  /** `CodexAppServerProcessClient`: the handlers update its maps and settle the promises that calls await. */
  class AppServerClient {
    var active: map<ThreadId, Option<TurnId>>
    var unconfirmed: set<ThreadId>
    var completed: map<TurnId, Completion>
    var usage: map<TurnId, ThreadId>
    var turnWaiters: map<TurnId, TurnWaiter>
    var stopWaiters: map<TurnId, StopWaiter>
    var retired: seq<TurnId>
    var failed: bool
    var runs: map<RunId, Run>
    ghost var terminal: set<(ThreadId, TurnId)>
    ghost var reports: seq<Report>

    ghost function View(): Client
      reads this
    {
      Client(active, unconfirmed, completed, usage, turnWaiters, stopWaiters, retired, failed, runs, terminal, reports)
    }

    constructor ()
      ensures View() == Start()
    {
      active, unconfirmed, completed, usage, turnWaiters, stopWaiters := map[], {}, map[], map[], map[], map[];
      retired, failed, runs, terminal, reports := [], false, map[], {}, [];
    }

    method RemoveWaiter(turn: TurnId)
      modifies this`turnWaiters, this`completed, this`usage
      ensures View() == RemoveTurnWaiter(old(View()), turn)
    {
      turnWaiters := turnWaiters - {turn};
      completed := completed - {turn};
      usage := usage - {turn};
    }

    method Settle(r: RunId, stage: Stage)
      modifies this`runs
      ensures View() == SettleWait(old(View()), r, stage)
    {
      if r in runs && runs[r].stage.Waiting? { runs := runs[r := runs[r].(stage := stage)]; }
    }

    /** `maybeFinishTurn`. */
    method FinishIfDone(turn: TurnId)
      modifies this
      ensures View() == MaybeFinish(old(View()), turn)
    {
      if turn in turnWaiters && turn in completed && completed[turn].thread == turnWaiters[turn].thread
        && completed[turn].status in {FAILED, INTERRUPTED}
      {
        var w := turnWaiters[turn];
        RemoveWaiter(turn);
        Settle(w.run, Rejected(true));
        return;
      }
      if turn !in turnWaiters || turn !in completed || completed[turn].thread != turnWaiters[turn].thread { return; }
      var w := turnWaiters[turn];
      if turn in usage && usage[turn] != w.thread { return; }
      if turn !in usage {
        if w.strict { return; }
        Settle(w.run, Waiting(w.strict, true));
        return;
      }
      RemoveWaiter(turn);
      Settle(w.run, Resolved(COMPLETED));
    }

    method RetireTurn(turn: TurnId)
      modifies this
      ensures View() == Retire(old(View()), turn)
    {
      RemoveWaiter(turn);
      if turn !in retired { retired := retired + [turn]; }
      if |retired| > RETIRED_LIMIT { retired := retired[1..]; }
    }

    /** `interruptAndConfirm` for a suspended call: answered at once, or a waiter is registered. */
    method InterruptAndConfirm(r: RunId, turn: TurnId)
      requires r in runs && Correlated(View(), runs[r]) == Some(turn)
      modifies this
      ensures View() == Interrupt(old(View()), r)
    {
      var thread := runs[r].thread;
      if turn in completed && completed[turn].thread == thread {
        runs := runs[r := runs[r].(stage := Answered(true))];
        return;
      }
      stopWaiters := stopWaiters[turn := StopWaiter(thread, ByRun(r))];
      runs := runs[r := runs[r].(stage := Interrupting)];
    }

    method TurnHasStarted(thread: ThreadId, turn: TurnId)
      modifies this
      ensures View() == OnStarted(old(View()), thread, turn)
    {
      if thread !in active { return; }
      if turn in retired { return; }
      var current := active[thread];
      if current.Some? && current != Some(turn) { return; }
      active := active[thread := Some(turn)];
      if thread in unconfirmed {
        if turn in completed && completed[turn].thread == thread {
          reports := reports + [Report(thread, Some(turn), true)];
        } else {
          stopWaiters := stopWaiters[turn := StopWaiter(thread, Late)];
        }
      }
    }

    /** A stop waiter of this thread and turn is resolved and removed. */
    method ResolveStop(thread: ThreadId, turn: TurnId)
      modifies this
      ensures View() == AnswerStop(old(View()), thread, turn)
    {
      if turn in stopWaiters && stopWaiters[turn].thread == thread {
        var w := stopWaiters[turn];
        stopWaiters := stopWaiters - {turn};
        match w.owner {
          case ByRun(r) => SettleStopped(r, true);
          case Late =>
            if thread in active { reports := reports + [Report(thread, active[thread], true)]; }
        }
      }
    }

    method TurnHasCompleted(thread: ThreadId, turn: TurnId, status: Status)
      modifies this
      ensures View() == OnCompleted(old(View()), thread, turn, status)
    {
      hide MaybeFinish, AnswerStop, Retire;
      terminal := terminal + {(thread, turn)};
      if turn in retired { return; }
      if thread in active && active[thread] == Some(turn) {
        reports := reports + [Report(thread, Some(turn), true)];
        if thread in unconfirmed {
          active := active - {thread};
          unconfirmed := unconfirmed - {thread};
          RetireTurn(turn);
          return;
        }
      }
      ResolveStop(thread, turn);
      completed := completed[turn := Completion(thread, status)];
      FinishIfDone(turn);
    }

    method UsageHasChanged(thread: ThreadId, turn: TurnId)
      modifies this
      ensures View() == OnUsage(old(View()), thread, turn)
    {
      if turn in retired { return; }
      usage := usage[turn := thread];
      FinishIfDone(turn);
    }

    method RejectTurnWaiter(t: TurnId)
      requires t in turnWaiters
      modifies this`turnWaiters, this`completed, this`usage, this`runs
      ensures turnWaiters == old(turnWaiters) - {t} && completed == old(completed) - {t} && usage == old(usage) - {t}
      ensures var r, m := old(turnWaiters[t].run), old(runs);
        runs == if r in m && m[r].stage.Waiting? then m[r := m[r].(stage := Rejected(false))] else m
    {
      var w := turnWaiters[t];
      RemoveWaiter(t);
      Settle(w.run, Rejected(false));
    }

    method RejectTurnWaiters()
      modifies this`turnWaiters, this`completed, this`usage, this`runs
      ensures turnWaiters == map[]
      ensures completed == old(completed) - old(turnWaiters.Keys) && usage == old(usage) - old(turnWaiters.Keys)
      ensures runs == RejectedRuns(old(runs), WaitedRuns(old(turnWaiters)), {})
    {
      hide RejectedRuns, RejectedRun, WaitedRuns;
      RejectRequests(runs);
      runs := map r | r in runs :: if runs[r].stage.Requesting? then runs[r].(stage := Rejected(false)) else runs[r];
      ghost var waited: set<RunId>, gone: set<TurnId> := {}, {};
      while turnWaiters != map[]
        invariant runs == RejectedRuns(old(runs), waited, {})
        invariant completed == old(completed) - gone && usage == old(usage) - gone
        invariant gone + turnWaiters.Keys == old(turnWaiters.Keys)
        invariant waited + WaitedRuns(turnWaiters) == WaitedRuns(old(turnWaiters))
        decreases |turnWaiters|
      {
        var t :| t in turnWaiters;
        var w := turnWaiters[t];
        WaitedSplit(turnWaiters, t);
        RejectWaited(old(runs), waited, w.run);
        MinusOneMore(old(completed), gone, t);
        MinusOneMore(old(usage), gone, t);
        RejectTurnWaiter(t);
        waited, gone := waited + {w.run}, gone + {t};
      }
      NoWaiters();
    }

    method RejectStopWaiters(ghost before: map<RunId, Run>, ghost waited: set<RunId>)
      requires runs == RejectedRuns(before, waited, {})
      modifies this`stopWaiters, this`runs
      ensures stopWaiters == map[] && runs == RejectedRuns(before, waited, StoppingRuns(old(stopWaiters)))
    {
      hide RejectedRuns, RejectedRun, StoppingRuns;
      ghost var stopping: set<RunId> := {};
      while stopWaiters != map[]
        invariant runs == RejectedRuns(before, waited, stopping)
        invariant stopping + StoppingRuns(stopWaiters) == StoppingRuns(old(stopWaiters))
        decreases |stopWaiters|
      {
        var t :| t in stopWaiters;
        var w := stopWaiters[t];
        StoppingSplit(stopWaiters, t);
        stopWaiters := stopWaiters - {t};
        if w.owner.ByRun? {
          RejectStopping(before, waited, stopping, w.owner.run);
          SettleStopped(w.owner.run, false);
          stopping := stopping + {w.owner.run};
        }
      }
      NoWaiters();
    }

    /** `rejectAll`: the pending requests first, then the turn waiters, then the stop waiters. */
    method RejectEverything()
      modifies this
      ensures View() == RejectAll(old(View()))
    {
      hide RejectedRuns, WaitedRuns, StoppingRuns;
      RejectTurnWaiters();
      RejectStopWaiters(old(runs), WaitedRuns(old(turnWaiters)));
    }

    method SettleStopped(r: RunId, confirmed: bool)
      modifies this`runs
      ensures View() == SettleStop(old(View()), r, confirmed)
    {
      if r in runs && runs[r].stage.Interrupting? { runs := runs[r := runs[r].(stage := Answered(confirmed))]; }
    }
  }

  lemma RejectRequests(runs: map<RunId, Run>)
    ensures (map r | r in runs :: if runs[r].stage.Requesting? then runs[r].(stage := Rejected(false)) else runs[r]) ==
      RejectedRuns(runs, {}, {})
  {
  }

  lemma MinusOneMore<T>(m: map<TurnId, T>, gone: set<TurnId>, t: TurnId)
    ensures m - gone - {t} == m - (gone + {t})
  {
  }

  lemma WaitedSplit(waiters: map<TurnId, TurnWaiter>, t: TurnId)
    requires t in waiters
    ensures WaitedRuns(waiters) == WaitedRuns(waiters - {t}) + {waiters[t].run}
  {
    forall r | r in WaitedRuns(waiters) ensures r in WaitedRuns(waiters - {t}) + {waiters[t].run} {
      var u :| u in waiters && waiters[u].run == r;
      assert u != t ==> u in waiters - {t};
    }
  }

  lemma StoppingSplit(waiters: map<TurnId, StopWaiter>, t: TurnId)
    requires t in waiters
    ensures StoppingRuns(waiters) ==
      StoppingRuns(waiters - {t}) + (if waiters[t].owner.ByRun? then {waiters[t].owner.run} else {})
  {
    forall r | r in StoppingRuns(waiters)
      ensures r in StoppingRuns(waiters - {t}) + (if waiters[t].owner.ByRun? then {waiters[t].owner.run} else {})
    {
      var u :| u in waiters && waiters[u].owner == ByRun(r);
      assert u != t ==> u in waiters - {t};
    }
  }

  lemma NoWaiters()
    ensures WaitedRuns(map[]) == {} && StoppingRuns(map[]) == {}
  {
  }

  lemma RejectWaited(runs: map<RunId, Run>, waited: set<RunId>, r: RunId)
    ensures var m := RejectedRuns(runs, waited, {});
      RejectedRuns(runs, waited + {r}, {}) == if r in m
        && m[r].stage.Waiting? then m[r := m[r].(stage := Rejected(false))] else m
  {
  }

  lemma RejectStopping(runs: map<RunId, Run>, waited: set<RunId>, stopping: set<RunId>, r: RunId)
    ensures var m := RejectedRuns(runs, waited, stopping);
      RejectedRuns(runs, waited, stopping + {r}) == if r in m
        && m[r].stage.Interrupting? then m[r := m[r].(stage := Answered(false))] else m
  {
  }
}
