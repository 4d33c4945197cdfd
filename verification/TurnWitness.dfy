/**
 * A run in which a repeated completion makes the client report a stop that did not happen
 * (codex/codex-side/src/codex-app-server-client.ts:569-573 and 906-988).
 */
module TurnWitness {
  import opened Bridge
  import opened TurnClient
  import opened TurnEvidence
  import opened TurnTheorems
  import opened TurnHandlers

  ghost predicate Reached(c: Client) {
    exists states: seq<Client>, events: seq<Event> :: History(states, events) && states[|events|] == c
  }

  lemma ReachedInv(c: Client)
    requires Reached(c)
    ensures Inv(c)
  {
    hide Inv, Steps;
    var states: seq<Client>, events: seq<Event> :| History(states, events) && states[|events|] == c;
    HistoryKeepsInv(states, events, |events|);
  }

  lemma StartReached()
    ensures Reached(Start())
  {
    var states, events: seq<Event> := [Start()], [];
    assert History(states, events);
  }

  lemma Extend(c: Client, e: Event, c': Client)
    requires Reached(c) && Steps(c, e, c')
    ensures Reached(c')
  {
    hide Steps;
    var states: seq<Client>, events: seq<Event> :| History(states, events) && states[|events|] == c;
    assert History(states + [c'], events + [e]);
  }

  /** A step by a notification of a start, or of a completion. */
  lemma Notified(c: Client, thread: ThreadId, turn: TurnId, status: Status)
    ensures Steps(c, TurnStarted(thread, turn, None), OnStarted(c, thread, turn))
    ensures Steps(c, TurnCompleted(thread, turn, status, None), OnCompleted(c, thread, turn, status))
  {
    hide OnStarted, OnCompleted;
  }

  // ---------------------------------------------------------------- one turn from call to retirement

  /**
   * Between turns: nothing is active or unconfirmed, nobody waits for a turn, and only the late interrupt of "old" is
   * left.
   */
  ghost predicate Quiescent(c: Client) {
    && c.active == map[] && c.unconfirmed == {} && c.completed == map[] && c.usage == map[] && c.turnWaiters == map[]
    && c.stopWaiters == map["old" := StopWaiter("t", Late)] && !c.failed
  }

  /** The thread has one call, which waits for a turn. */
  ghost predicate OneTurn(c: Client, base: Client, r: RunId, thread: ThreadId, turn: TurnId) {
    && c.active == map[thread := Some(turn)] && c.unconfirmed == {} && c.completed == map[] && c.usage == map[]
    && c.turnWaiters == map[turn := TurnWaiter(thread, r, false)]
    && c.stopWaiters == base.stopWaiters && !c.failed && c.retired == base.retired && c.terminal == base.terminal
    && c.runs == base.runs[r := Run(thread, Some(turn), None, true, false, Waiting(false, false))]
  }

  lemma BeginTurn(c: Client, r: RunId, thread: ThreadId, turn: TurnId) returns (c': Client)
    requires Reached(c) && Quiescent(c) && r !in c.runs
    ensures Reached(c') && OneTurn(c', c, r, thread, turn)
  {
    var c1 := Handle(c, Call(r, thread));
    assert c1 == c.(active := map[thread := None],
      runs := c.runs[r := Run(thread, None, None, false, false, Announcing)]);
    Extend(c, Call(r, thread), c1);
    var c2 := Handle(c1, AnnounceDone(r));
    assert c2.runs == c.runs[r := Run(thread, None, None, true, false, Requesting)];
    Extend(c1, AnnounceDone(r), c2);
    var c3 := Handle(c2, StartAnswered(r, turn));
    assert c3.runs == c.runs[r := Run(thread, None, None, true, false, Responded(turn))];
    Extend(c2, StartAnswered(r, turn), c3);
    c' := Handle(c3, ContinueStart(r, false, false));
    assert c'.runs == c.runs[r := Run(thread, Some(turn), None, true, false, Waiting(false, false))];
    assert c'.active == map[thread := Some(turn)];
    Extend(c3, ContinueStart(r, false, false), c');
  }

  lemma FailTurn(c: Client, base: Client, r: RunId, thread: ThreadId, turn: TurnId) returns (c': Client)
    requires Reached(c) && OneTurn(c, base, r, thread, turn) && Quiescent(base) && turn !in c.retired && turn != "old"
    ensures Reached(c') && c'.active == c.active && c'.unconfirmed == {} && c'.stopWaiters == base.stopWaiters
      && !c'.failed
    ensures c'.completed == map[] && c'.usage == map[] && c'.turnWaiters == map[] && c'.retired == base.retired
    ensures c'.terminal == base.terminal + {(thread, turn)}
    ensures c'.runs == base.runs[r := Run(thread, Some(turn), None, true, false, Rejected(true))]
  {
    hide Reached, Steps, OnCompleted, MaybeFinish, AnswerStop, Free, Quiescent;
    c' := OnCompleted(c, thread, turn, FAILED);
    Notified(c, thread, turn, FAILED);
    CompletedShape(c, thread, turn, FAILED);
    var c1 := Noted(c, thread, turn);
    assert turn !in c.stopWaiters by { OnlyOldWatched(base); }
    Unanswered(c1, thread, turn);
    Fails(Recorded(c1, thread, turn, FAILED), base, r, thread, turn);
    Extend(c, TurnCompleted(thread, turn, FAILED, None), c');
  }

  lemma OnlyOldWatched(c: Client)
    requires Quiescent(c)
    ensures c.stopWaiters.Keys == {"old"}
  {
  }

  /** A turn that has failed settles its wait. */
  lemma Fails(c: Client, base: Client, r: RunId, thread: ThreadId, turn: TurnId)
    requires c.completed == map[turn := Completion(thread, FAILED)] && c.usage == map[]
    requires c.turnWaiters == map[turn := TurnWaiter(thread, r, false)]
    requires c.runs == base.runs[r := Run(thread, Some(turn), None, true, false, Waiting(false, false))]
    ensures var c' := MaybeFinish(c, turn);
      && c'.active == c.active && c'.unconfirmed == c.unconfirmed && c'.stopWaiters == c.stopWaiters
        && c'.failed == c.failed
      && c'.retired == c.retired && c'.terminal == c.terminal && c'.completed == map[] && c'.usage == map[]
        && c'.turnWaiters == map[]
      && c'.runs == base.runs[r := Run(thread, Some(turn), None, true, false, Rejected(true))]
  {
    assert map[turn := Completion(thread, FAILED)] - {turn} == map[];
    assert c.turnWaiters - {turn} == map[];
    assert c.usage - {turn} == map[];
    var c1 := RemoveTurnWaiter(c, turn);
    assert MaybeFinish(c, turn) == SettleWait(c1, r, Rejected(true));
  }

  lemma EndTurn(c: Client, base: Client, r: RunId, thread: ThreadId, turn: TurnId) returns (c': Client)
    requires Reached(c) && c.active == map[thread := Some(turn)] && c.unconfirmed == {}
      && c.stopWaiters == base.stopWaiters && !c.failed
    requires c.completed == map[] && c.usage == map[] && c.turnWaiters == map[] && Quiescent(base)
    requires c.runs == base.runs[r := Run(thread, Some(turn), None, true, false, Rejected(true))]
    ensures Reached(c') && Quiescent(c') && c'.terminal == c.terminal && c'.runs.Keys == base.runs.Keys + {r}
    ensures c'.retired == Retire(c, turn).retired
  {
    var c1 := Handle(c, ContinueRejected(r));
    assert c1.runs == base.runs[r := Run(thread, Some(turn), Some(turn), true, true, Reporting)];
    Extend(c, ContinueRejected(r), c1);
    c' := Handle(c1, CallbackDone(r));
    assert c'.active == map[];
    Extend(c1, CallbackDone(r), c');
  }

  lemma RetireOne(c: Client, r: RunId, thread: ThreadId, turn: TurnId) returns (c': Client)
    requires Reached(c) && Quiescent(c) && r !in c.runs && turn !in c.retired && turn != "old"
    ensures Reached(c') && Quiescent(c') && c'.retired == Retire(c, turn).retired
    ensures c'.terminal == c.terminal + {(thread, turn)} && c'.runs.Keys == c.runs.Keys + {r}
  {
    var c1 := BeginTurn(c, r, thread, turn);
    var c2 := FailTurn(c1, c, r, thread, turn);
    c' := EndTurn(c2, c, r, thread, turn);
  }

  // ---------------------------------------------------------------- the run

  /**
   * A call whose turn/start fails gives its thread up as unconfirmed; the turn starts after all, so a late interrupt
   * waits for it; then it completes, which frees the thread and retires the turn.
   */
  lemma LateInterrupt() returns (c: Client)
    ensures Reached(c) && Quiescent(c) && c.retired == ["old"] && c.terminal == {("t", "old")} && c.runs.Keys == {0}
  {
    StartReached();
    var c1 := Handle(Start(), Call(0, "t"));
    Extend(Start(), Call(0, "t"), c1);
    var c2 := Handle(c1, AnnounceDone(0));
    assert c2.runs == map[0 := Run("t", None, None, true, false, Requesting)];
    Extend(c1, AnnounceDone(0), c2);
    var c3 := Handle(c2, StartFailed(0));
    assert c3.runs == map[0 := Run("t", None, None, true, false, Rejected(false))];
    Extend(c2, StartFailed(0), c3);
    c := GivenUp(c3);
  }

  lemma GivenUp(c3: Client) returns (c: Client)
    requires Reached(c3) && c3 ==
      Start().(active := map["t" := None], runs := map[0 := Run("t", None, None, true, false, Rejected(false))])
    ensures Reached(c) && Quiescent(c) && c.retired == ["old"] && c.terminal == {("t", "old")} && c.runs.Keys == {0}
  {
    var c4 := Handle(c3, ContinueRejected(0));
    assert c4.unconfirmed == {"t"} && c4.runs == map[0 := Run("t", None, None, true, false, Reporting)];
    Extend(c3, ContinueRejected(0), c4);
    var c5 := Handle(c4, CallbackDone(0));
    assert c5.runs == map[0 := Run("t", None, None, true, false, Returned)];
    Extend(c4, CallbackDone(0), c5);
    c := CompletesLate(c5);
  }

  lemma CompletesLate(c5: Client) returns (c: Client)
    requires Reached(c5) && c5.runs == map[0 := Run("t", None, None, true, false, Returned)]
    requires c5 == Start().(active := map["t" := None], unconfirmed := {"t"}, runs := c5.runs)
    ensures Reached(c) && Quiescent(c) && c.retired == ["old"] && c.terminal == {("t", "old")} && c.runs.Keys == {0}
  {
    hide Steps, OnStarted, OnCompleted, MaybeFinish, AnswerStop, Free, Noted;
    var c6 := OnStarted(c5, "t", "old");
    Notified(c5, "t", "old", COMPLETED);
    StartsLate(c5);
    Extend(c5, TurnStarted("t", "old", None), c6);
    Notified(c6, "t", "old", COMPLETED);
    CompletedShape(c6, "t", "old", COMPLETED);
    c := OnCompleted(c6, "t", "old", COMPLETED);
    LateFree(c6);
    Extend(c6, TurnCompleted("t", "old", COMPLETED, None), c);
  }

  lemma StartsLate(c: Client)
    requires c == Start().(active := map["t" := None], unconfirmed := {"t"}, runs := c.runs)
    ensures OnStarted(c, "t", "old") ==
      c.(active := map["t" := Some("old")], stopWaiters := map["old" := StopWaiter("t", Late)])
  {
    assert c.active["t" := Some("old")] == map["t" := Some("old")];
  }

  lemma LateFree(c: Client)
    requires c == Start().(active := map["t" := Some("old")], unconfirmed := {"t"}, runs := c.runs,
      stopWaiters := c.stopWaiters)
    requires c.stopWaiters == map["old" := StopWaiter("t", Late)]
    ensures var c' := Free(Noted(c, "t", "old"), "t", Some("old"));
      Quiescent(c') && c'.retired == ["old"] && c'.terminal == {("t", "old")} && c'.runs == c.runs
  {
    assert c.active - {"t"} == map[] && c.unconfirmed - {"t"} == {};
    assert c.terminal + {("t", "old")} == {("t", "old")};
  }

  /** Names of other turns, none of them as short as "old" and "new". */
  function TurnName(i: nat): (r: TurnId)
    ensures |r| == i + 4
  {
    seq(i + 4, _ => 'a')
  }

  function TurnNames(n: nat): (r: seq<TurnId>)
    ensures |r| == n && forall i :: 0 <= i < n ==> r[i] == TurnName(i)
  {
    seq(n, i requires 0 <= i < n => TurnName(i))
  }

  lemma NamesDiffer(n: nat)
    ensures TurnName(n) !in TurnNames(n) && TurnName(n) != "old"
    ensures TurnName(n) !in ["old"] + TurnNames(n)
    ensures TurnNames(n) + [TurnName(n)] == TurnNames(n + 1)
  {
    assert forall i :: 0 <= i < n ==> |TurnNames(n)[i]| == i + 4;
  }

  /** n other turns are retired behind "old"; the last one pushes "old" out. */
  ghost predicate RetiredUpTo(c: Client, n: nat) {
    && c.retired == (if n < RETIRED_LIMIT then ["old"] + TurnNames(n) else TurnNames(n))
    && (forall r :: r in c.runs <==> 0 <= r <= n)
    && (forall p :: p in c.terminal ==> p.1 != "new")
  }

  lemma OneMoreRetired(c: Client, n: nat)
    requires n < RETIRED_LIMIT && c.retired == ["old"] + TurnNames(n)
    ensures Retire(c, TurnName(n)).retired == if n + 1 < RETIRED_LIMIT then ["old"] + TurnNames(n + 1)
      else TurnNames(n + 1)
  {
    NamesDiffer(n);
    hide TurnName, TurnNames;
    assert c.retired + [TurnName(n)] == ["old"] + TurnNames(n + 1);
    assert (["old"] + TurnNames(n + 1))[1..] == TurnNames(n + 1);
  }

  lemma OneMoreTurn(before: Client, n: nat) returns (c: Client)
    requires n < RETIRED_LIMIT && Reached(before) && Quiescent(before) && RetiredUpTo(before, n)
    ensures Reached(c) && Quiescent(c) && RetiredUpTo(c, n + 1)
  {
    hide Reached, Quiescent, Retire;
    NamesDiffer(n);
    OneMoreRetired(before, n);
    c := RetireOne(before, n + 1, "x", TurnName(n));
    assert |TurnName(n)| != |"new"|;
  }

  /** After n other turns have failed on another thread. */
  lemma {:induction false} Retirements(n: nat) returns (c: Client)
    requires n <= RETIRED_LIMIT
    ensures Reached(c) && Quiescent(c) && RetiredUpTo(c, n)
  {
    hide Reached, Quiescent;
    if n == 0 {
      c := LateInterrupt();
      assert ["old"] + TurnNames(0) == ["old"];
    } else {
      hide RetiredUpTo;
      c := Retirements(n - 1);
      c := OneMoreTurn(c, n - 1);
    }
  }

  /**
   * It takes a completion that is repeated after 1024 other turns were retired, while the late interrupt of its turn is
   * still waiting: the client then reports as stopped the new turn of the thread, which has not ended.
   */
  lemma StaleExample()
    ensures exists c, e, c' :: (Reached(c) && StaleCompletion(c, e) && Steps(c, e, c') && Reached(c')
      && !AddsOnlySound(c, c'))
  {
    var c0 := Retirements(RETIRED_LIMIT);
    var c := BeginTurn(c0, RETIRED_LIMIT + 1, "t", "new");
    var e := TurnCompleted("t", "old", COMPLETED, None);
    assert forall i :: 0 <= i < RETIRED_LIMIT ==> |TurnNames(RETIRED_LIMIT)[i]| == i + 4;
    assert "old" !in c.retired;
    assert StaleCompletion(c, e);
    var c' := Handle(c, e);
    Extend(c, e, c');
    ReachedInv(c);
    hide Inv, StaleCompletion, AddsOnlySound, Handle, Reached;
    ReportsExact(c, e, c');
  }
}
