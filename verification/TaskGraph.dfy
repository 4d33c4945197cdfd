/**
 * The dependency graph of tasks (shared/control-plane/src/task-service.ts, the table task_dependencies).
 *
 * An edge (t, d) says that task t depends on task d.
 */
module TaskGraph {
  import opened Text

  type TaskId = string
  type Edges = set<(TaskId, TaskId)>

  ghost predicate IsPath(edges: Edges, p: seq<TaskId>) {
    && p != []
    && forall i :: 0 <= i < |p| - 1 ==> (p[i], p[i + 1]) in edges
  }

  ghost predicate PathBetween(edges: Edges, p: seq<TaskId>, a: TaskId, b: TaskId) {
    IsPath(edges, p) && p[0] == a && p[|p| - 1] == b
  }

  /** Some path, possibly of no edge at all, leads from `a` to `b`. */
  ghost predicate Reachable(edges: Edges, a: TaskId, b: TaskId) {
    exists p :: PathBetween(edges, p, a, b)
  }

  ghost predicate Acyclic(edges: Edges) {
    forall a, b :: (a, b) in edges ==> !Reachable(edges, b, a)
  }

  lemma ReachSelf(edges: Edges, a: TaskId)
    ensures Reachable(edges, a, a)
  {
    assert PathBetween(edges, [a], a, a);
  }

  lemma ReachByEdge(edges: Edges, a: TaskId, b: TaskId, c: TaskId)
    requires (a, b) in edges && Reachable(edges, b, c)
    ensures Reachable(edges, a, c)
  {
    var p :| PathBetween(edges, p, b, c);
    assert PathBetween(edges, [a] + p, a, c);
  }

  lemma {:induction false} ReachTransitive(edges: Edges, p: seq<TaskId>, a: TaskId, b: TaskId, c: TaskId)
    requires PathBetween(edges, p, a, b) && Reachable(edges, b, c)
    ensures Reachable(edges, a, c)
    decreases |p|
  {
    if |p| > 1 {
      assert PathBetween(edges, p[1..], p[1], b);
      ReachTransitive(edges, p[1..], p[1], b, c);
      ReachByEdge(edges, a, p[1], c);
    }
  }

  lemma ReachThrough(edges: Edges, a: TaskId, b: TaskId, c: TaskId)
    requires Reachable(edges, a, b) && (b, c) in edges
    ensures Reachable(edges, a, c)
  {
    var p :| PathBetween(edges, p, a, b);
    assert PathBetween(edges, p + [c], a, c);
  }

  lemma ReachMonotone(edges: Edges, more: Edges, a: TaskId, b: TaskId)
    requires edges <= more && Reachable(edges, a, b)
    ensures Reachable(more, a, b)
  {
    var p :| PathBetween(edges, p, a, b);
    assert PathBetween(more, p, a, b);
  }

  // ---------------------------------------------------------------- searching the graph

  /** Everything `seen` points to has been seen or is on the stack, and `to` has not been seen. */
  ghost predicate Frontier(edges: Edges, from: TaskId, to: TaskId, seen: set<TaskId>, stack: seq<TaskId>) {
    && (from in seen || from in stack)
    && to !in seen
    && (forall x, y :: x in seen && (x, y) in edges ==> y in seen || y in stack)
    && (forall x :: x in stack ==> Reachable(edges, from, x))
  }

  lemma {:induction false} SeenIsClosed(edges: Edges, p: seq<TaskId>, a: TaskId, to: TaskId, seen: set<TaskId>)
    requires PathBetween(edges, p, a, to) && a in seen
    requires forall x, y :: x in seen && (x, y) in edges ==> y in seen
    ensures to in seen
    decreases |p|
  {
    if |p| > 1 {
      assert (p[0], p[1]) in edges;
      assert PathBetween(edges, p[1..], p[1], to);
      SeenIsClosed(edges, p[1..], p[1], to, seen);
    }
  }

  /** A new edge is used by a path at most on the way into `a` and out of `b`. */
  lemma {:induction false} PathThroughNewEdge(edges: Edges, a: TaskId, b: TaskId, p: seq<TaskId>, x: TaskId, y: TaskId)
    requires PathBetween(edges + {(a, b)}, p, x, y)
    ensures Reachable(edges, x, y) || (Reachable(edges, x, a) && Reachable(edges, b, y))
    decreases |p|
  {
    if |p| == 1 {
      ReachSelf(edges, x);
    } else {
      var rest := p[1..];
      assert PathBetween(edges + {(a, b)}, rest, p[1], y);
      PathThroughNewEdge(edges, a, b, rest, p[1], y);
      assert (x, p[1]) in edges + {(a, b)};
      if (x, p[1]) in edges {
        if Reachable(edges, p[1], y) { ReachByEdge(edges, x, p[1], y); } else { ReachByEdge(edges, x, p[1], a); }
      } else {
        ReachSelf(edges, x);
      }
    }
  }

  /** Adding an edge to an acyclic graph closes a cycle exactly when its target already reaches its source. */
  lemma NewEdgeCycle(edges: Edges, a: TaskId, b: TaskId)
    requires Acyclic(edges)
    ensures Acyclic(edges + {(a, b)}) <==> !Reachable(edges, b, a)
  {
    var more := edges + {(a, b)};
    if Reachable(edges, b, a) {
      ReachMonotone(edges, more, b, a);
      assert (a, b) in more;
    } else {
      forall x, y | (x, y) in more ensures !Reachable(more, y, x) {
        if Reachable(more, y, x) {
          var p :| PathBetween(more, p, y, x);
          PathThroughNewEdge(edges, a, b, p, y, x);
          NoWayRound(edges, a, b, x, y);
        }
      }
    }
  }

  lemma NoWayRound(edges: Edges, a: TaskId, b: TaskId, x: TaskId, y: TaskId)
    requires Acyclic(edges) && !Reachable(edges, b, a) && (x, y) in edges + {(a, b)}
    ensures !Reachable(edges, y, x) && !(Reachable(edges, y, a) && Reachable(edges, b, x))
  {
    if Reachable(edges, y, a) && Reachable(edges, b, x) {
      var p :| PathBetween(edges, p, b, x);
      if (x, y) in edges { ReachByEdge(edges, x, y, a); }
      ReachTransitive(edges, p, b, x, a);
    }
  }

  /** Edges out of a node that nothing points to close no cycle. */
  lemma FreshSourceKeepsAcyclic(edges: Edges, a: TaskId, targets: seq<TaskId>)
    requires Acyclic(edges) && a !in targets
    requires forall x, y :: (x, y) in edges ==> y != a
    ensures Acyclic(edges + set d | d in targets :: (a, d))
  {
    var more := edges + set d | d in targets :: (a, d);
    forall x, y | (x, y) in more ensures !Reachable(more, y, x) {
      if Reachable(more, y, x) {
        var p :| PathBetween(more, p, y, x);
        AvoidsFresh(edges, more, a, p, y, x);
      }
    }
  }

  lemma {:induction false} AvoidsFresh(edges: Edges, more: Edges, a: TaskId, p: seq<TaskId>, x: TaskId, y: TaskId)
    requires PathBetween(more, p, x, y) && x != a
    requires forall e :: e in more ==> e.1 != a && (e in edges || e.0 == a)
    ensures y != a && Reachable(edges, x, y)
    decreases |p|
  {
    if |p| == 1 {
      ReachSelf(edges, x);
    } else {
      assert (p[0], p[1]) in more;
      assert PathBetween(more, p[1..], p[1], y);
      AvoidsFresh(edges, more, a, p[1..], p[1], y);
      ReachByEdge(edges, x, p[1], y);
    }
  }

  // ---------------------------------------------------------------- minimal elements

  ghost predicate Minimal(edges: Edges, s: set<TaskId>, m: TaskId) {
    m in s && forall d :: (m, d) in edges ==> d !in s
  }

  /** In an acyclic graph every non-empty set has a member that depends on no other member. */
  lemma {:induction false} MinimalElement(edges: Edges, s: set<TaskId>) returns (m: TaskId)
    requires Acyclic(edges) && s != {}
    ensures Minimal(edges, s, m)
    decreases |s|
  {
    var x :| x in s;
    var below := set y | y in s && y != x && Reachable(edges, x, y);
    if below == {} {
      m := x;
      forall d | (m, d) in edges ensures d !in s {
        ReachSelf(edges, x);
        StaysBelow(edges, x, m, d);
        assert d in s ==> d in below;
      }
    } else {
      assert x !in below && below < s;
      SmallerSet(below, s);
      m := MinimalElement(edges, below);
      forall d | (m, d) in edges ensures d !in s {
        StaysBelow(edges, x, m, d);
        assert d in s ==> d in below;
      }
    }
  }

  lemma StaysBelow(edges: Edges, x: TaskId, m: TaskId, d: TaskId)
    requires Acyclic(edges) && Reachable(edges, x, m) && (m, d) in edges
    ensures d != x && Reachable(edges, x, d)
  {
    var p :| PathBetween(edges, p, x, m);
    ReachSelf(edges, d);
    ReachByEdge(edges, m, d, d);
    ReachTransitive(edges, p, x, m, d);
  }

  lemma SmallerSet<T>(a: set<T>, b: set<T>)
    requires a < b
    ensures |a| < |b|
  {
    assert b == a + (b - a);
    assert b - a != {};
  }
}
