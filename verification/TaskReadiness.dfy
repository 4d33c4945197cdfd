/**
 * Ready tasks: the dependency graph never deadlocks (shared/control-plane/src/task-service.ts:409-424), as
 * long as the query for PENDING tasks is not cut off by its row limit
 * (shared/control-plane/src/store/sqlite-store.ts:507-529).
 */
module TaskReadiness {
  import opened Bridge
  import opened TaskGraph
  import opened TaskService
  import opened TaskRuns

  function Pending(s: Store): set<TaskId> {
    set id | id in s.tasks && s.tasks[id].state == PENDING
  }

  /** Nothing is under way: every task is DONE or PENDING. */
  predicate Idle(s: Store) {
    forall id :: id in s.tasks ==> s.tasks[id].state in {DONE, PENDING}
  }

  lemma {:induction false} DistinctCount(rows: seq<TaskId>, all: set<TaskId>)
    requires forall i, j :: 0 <= i < j < |rows| ==> rows[i] != rows[j]
    requires forall i :: 0 <= i < |rows| ==> rows[i] in all
    ensures |rows| <= |all|
    ensures |rows| == |all| ==> forall x :: x in all ==> x in rows
  {
    if rows == [] {
      assert |all| == 0 ==> all == {};
    } else {
      var x := rows[0];
      assert forall i :: 0 <= i < |rows[1..]| ==> rows[1..][i] == rows[i + 1];
      DistinctCount(rows[1..], all - {x});
      forall y | |rows| == |all| && y in all ensures y in rows {
        assert y == x || y in rows[1..];
      }
    }
  }

  /** With no more PENDING tasks than the limit, the listing leaves none out. */
  lemma ListingIsComplete(s: Store, limit: nat, rows: seq<TaskId>)
    requires IsListing(s, limit, rows) && |Pending(s)| <= limit
    ensures forall id :: id in Pending(s) ==> id in rows
  {
    DistinctCount(rows, Pending(s));
  }

  /** An idle store with a PENDING task has a ready one, whatever edges were added and in whatever order. */
  lemma NoDeadlock(s: Store, limit: nat, rows: seq<TaskId>)
    requires GraphInv(s) && PendingIffUnowned(s) && Idle(s) && Pending(s) != {}
    requires IsListing(s, limit, rows) && |Pending(s)| <= limit
    ensures exists id :: id in rows && IsReady(s, id)
  {
    var m := MinimalElement(s.edges, Pending(s));
    ListingIsComplete(s, limit, rows);
    forall e | e in s.edges && e.0 == m ensures IsDone(s, e.1) {
      assert (m, e.1) in s.edges;
    }
    assert IsReady(s, m);
  }

  /** The same over every run that releases what it moves to PENDING. */
  lemma NoDeadlockInRuns(states: seq<Store>, steps: seq<Step>, n: nat, limit: nat, rows: seq<TaskId>)
    requires Run(states, steps) && n < |states| && forall i :: 0 <= i < |steps| ==> !MovesToPending(steps[i])
    requires Idle(states[n]) && Pending(states[n]) != {}
    requires IsListing(states[n], limit, rows) && |Pending(states[n])| <= limit
    ensures exists id :: id in rows && IsReady(states[n], id)
  {
    hide Run, GraphInv, PendingIffUnowned;
    GraphOfEveryRun(states, steps, n);
    OwnershipOfEveryRun(states, steps, n);
    NoDeadlock(states[n], limit, rows);
  }

  /** A ready task can be claimed by any agent, and then started. */
  lemma ReadyCanStart(s: Store, id: TaskId, agent: AgentId)
    requires IsReady(s, id)
    ensures Claim(s, id, agent).Ok?
    ensures var s1 := Claim(s, id, agent).value;
      Transition(s1, id, agent, WORKING).Ok? && Transition(s1, id, agent, WORKING).value.tasks[id].state == WORKING
  {
    var s1 := Claim(s, id, agent).value;
    forall e | e in s1.edges && e.0 == id ensures IsDone(s1, e.1) {
      assert IsDone(s, e.1);
    }
  }

  // ---------------------------------------------------------------- the row limit is sharp

  /** Distinct names for the tasks of a crowd. */
  function Name(i: nat): (r: TaskId)
    ensures |r| == i + 1
  {
    seq(i + 1, _ => 'a')
  }

  function Names(n: nat): set<TaskId> {
    set i | 0 <= i < n :: Name(i)
  }

  /** Of `made` tasks the first `linked` have been told to wait for the one called `Name(last)`. */
  function CrowdTask(id: TaskId, linked: nat, last: nat): Task
    requires id != ""
  {
    if |id| <= linked then Task(PENDING, None, 0, 2, [Name(last)], |id|) else Task(PENDING, None, 0, 1, [], |id|)
  }

  function Crowd(made: nat, linked: nat, last: nat): Store {
    Store(map id | id in Names(made) && id != "" :: CrowdTask(id, linked, last),
          set id | id in Names(linked) :: (id, Name(last)))
  }

  lemma NameInNames(i: nat, n: nat)
    ensures Name(i) in Names(n) <==> i < n
  {
  }

  lemma {:induction false} CrowdIsMade(made: nat, last: nat)
    ensures Reached(Crowd(made, 0, last))
  {
    if made == 0 {
      assert Crowd(0, 0, last) == Store(map[], {});
      var s := Start();
    } else {
      CrowdIsMade(made - 1, last);
      var s, s' := Crowd(made - 1, 0, last), Crowd(made, 0, last);
      NameInNames(made - 1, made - 1);
      assert Names(made) == Names(made - 1) + {Name(made - 1)};
      assert s'.tasks == s.tasks[Name(made - 1) := Task(PENDING, None, 0, 1, [], made)];
      assert EdgesOf(Name(made - 1), []) == {};
      var next := Extend(s, CreateStep(Name(made - 1), [], made));
    }
  }

  lemma {:induction false} CrowdIsLinked(linked: nat, last: nat)
    requires linked <= last
    ensures Reached(Crowd(last + 1, linked, last))
  {
    hide Crowd, Next, Enabled, Reached;
    if linked == 0 {
      CrowdIsMade(last + 1, last);
    } else {
      CrowdIsLinked(linked - 1, last);
      LinkOne(linked - 1, last);
      var next := Extend(Crowd(last + 1, linked - 1, last), DependStep(Name(linked - 1), Name(last)));
    }
  }

  lemma LinkOne(k: nat, last: nat)
    requires k < last
    ensures Enabled(Crowd(last + 1, k, last), DependStep(Name(k), Name(last)))
    ensures Next(Crowd(last + 1, k, last), DependStep(Name(k), Name(last))) == Ok(Crowd(last + 1, k + 1, last))
  {
    var s, s' := Crowd(last + 1, k, last), Crowd(last + 1, k + 1, last);
    NameInNames(k, last + 1);
    NameInNames(last, last + 1);
    NoWayOut(s.edges, Name(last), Name(k));
    assert Names(k + 1) == Names(k) + {Name(k)};
    assert s'.edges == s.edges + {(Name(k), Name(last))};
    assert s.tasks[Name(k)] == Task(PENDING, None, 0, 1, [], k + 1);
    assert [] + [Name(last)] == [Name(last)];
    OnlyThatLengthChanges(k, last);
    assert s'.tasks == s.tasks[Name(k) := Task(PENDING, None, 0, 2, [Name(last)], k + 1)];
  }

  lemma OnlyThatLengthChanges(k: nat, last: nat)
    ensures forall id :: id in Names(last + 1) && id != Name(k) ==> |id| != k + 1
  {
    forall id | id in Names(last + 1) && id != Name(k) ensures |id| != k + 1 {
      var i :| 0 <= i < last + 1 && id == Name(i);
    }
  }

  lemma NoWayOut(edges: Edges, a: TaskId, b: TaskId)
    requires a != b && forall e :: e in edges ==> e.0 != a
    ensures !Reachable(edges, a, b)
  {
    forall p ensures !PathBetween(edges, p, a, b) {
      if |p| > 1 && p[0] == a { assert (p[0], p[1]) !in edges; }
    }
  }

  lemma CrowdIsPending(limit: nat)
    ensures var s := Crowd(limit + 1, limit, limit);
      PendingIffUnowned(s) && Idle(s) && Pending(s) == Names(limit + 1)
  {
    var s := Crowd(limit + 1, limit, limit);
    assert s.tasks.Keys == Names(limit + 1) by {
      assert "" !in Names(limit + 1);
    }
    assert forall id :: id in s.tasks ==> s.tasks[id] == CrowdTask(id, limit, limit);
  }

  function Oldest(limit: nat): (r: seq<TaskId>)
    ensures |r| == limit && forall i :: 0 <= i < limit ==> r[i] == Name(i)
  {
    seq(limit, i requires 0 <= i < limit => Name(i))
  }

  lemma CrowdListing(limit: nat)
    ensures IsListing(Crowd(limit + 1, limit, limit), limit, Oldest(limit))
  {
    var s, rows := Crowd(limit + 1, limit, limit), Oldest(limit);
    CrowdIsPending(limit);
    forall i | 0 <= i < limit ensures rows[i] in Pending(s) {
      NameInNames(i, limit + 1);
    }
    forall id | id in Names(limit + 1) && id !in rows ensures |id| == limit + 1 {
      var i :| 0 <= i < limit + 1 && id == Name(i);
      assert i < limit ==> rows[i] == id;
    }
    assert forall id :: id in s.tasks ==> s.tasks[id].createdAt == |id|;
  }

  lemma CrowdHidesReady(limit: nat, id: TaskId)
    requires id in Oldest(limit)
    ensures !IsReady(Crowd(limit + 1, limit, limit), id)
  {
    var s := Crowd(limit + 1, limit, limit);
    CrowdIsPending(limit);
    var i :| 0 <= i < limit && id == Oldest(limit)[i];
    NameInNames(i, limit);
    NameInNames(limit, limit + 1);
    assert (id, Name(limit)) in s.edges;
    assert Name(limit) in Pending(s);
  }

  /** One PENDING task more than the limit is enough for the listing to hide the only ready one. */
  lemma LimitIsSharp(limit: nat)
    ensures exists s, rows :: (Reached(s) && PendingIffUnowned(s) && Idle(s) && |Pending(s)| == limit + 1
      && IsListing(s, limit, rows) && forall id :: id in rows ==> !IsReady(s, id))
  {
    hide Reached, PendingIffUnowned, Idle, IsListing, IsReady, Crowd;
    CrowdIsLinked(limit, limit);
    CrowdIsPending(limit);
    CrowdListing(limit);
    NamesCount(limit + 1);
    forall id | id in Oldest(limit) ensures !IsReady(Crowd(limit + 1, limit, limit), id) {
      CrowdHidesReady(limit, id);
    }
  }

  lemma {:induction false} NamesCount(n: nat)
    ensures |Names(n)| == n
  {
    if n > 0 {
      NamesCount(n - 1);
      NameInNames(n - 1, n - 1);
      assert Names(n) == Names(n - 1) + {Name(n - 1)};
    }
  }
}
