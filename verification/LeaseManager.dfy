/**
 * Write-scope leases (shared/control-plane/src/lease-manager.ts).
 *
 * Each operation is first defined on the value of the store; the methods of the class update the database
 * in place and are proved to do exactly that. `now` is the injected clock.
 */
module LeaseManager {
  import opened Bridge
  import opened WriteScopes
  import opened ControlStore

  /** A held lease is live until it times out; one that is quarantined, or fences an execution, at any time. */
  predicate IsLive(s: Store, id: LeaseId, now: int)
    requires id in s.leases
  {
    var l := s.leases[id];
    if l.state == LeaseState.QUARANTINED then true
    else if l.state != HELD then false
    else l.expiresAt > now || Fenced(s, id)
  }

  /** The lease belongs to the caller's own task, is held, and fences no running execution. */
  predicate OwnExtension(s: Store, id: LeaseId, holder: AgentId, task: Option<TaskId>)
    requires id in s.leases
  {
    var l := s.leases[id];
    && l.holder == holder && task == Some(l.task) && l.state == HELD
    && (l.task in s.executions ==> s.executions[l.task].stopConfirmed)
  }

  predicate FencesTask(s: Store, id: LeaseId, task: Option<TaskId>)
    requires id in s.leases
  {
    task == Some(s.leases[id].task) && (s.leases[id].state == LeaseState.QUARANTINED || Fenced(s, id))
  }

  /** `findConflicts` reports this lease. */
  predicate Blocks(s: Store, id: LeaseId, scope: seq<string>, holder: AgentId, task: Option<TaskId>, now: int)
    requires id in s.leases
  {
    && Listed(s.leases[id])
    && IsLive(s, id, now)
    && !OwnExtension(s, id, holder, task)
    && (Conflict(scope, s.leases[id].scope) || FencesTask(s, id, task))
  }

  function FindConflicts(s: Store, scope: seq<string>, holder: AgentId, task: Option<TaskId>, now: int): set<LeaseId> {
    set id | id in s.leases && Blocks(s, id, scope, holder, task, now)
  }

  /**
   * The transaction of `acquire`: check again, then insert. `readAt` is the clock of the first check, `now` of this
   * one.
   */
  function AcquireTx(s: Store, id: LeaseId, task: TaskId, holder: AgentId, scope: seq<string>, ttl: int, readAt: int,
      now: int): Result<Store> {
    if ttl <= 0 then Err(INVALID_ARGUMENT)
    else if FindConflicts(s, scope, holder, Some(task), now) != {} then Err(SCOPE_CONFLICT)
    else Ok(PutLease(s, id, Lease(task, holder, scope, HELD, readAt, readAt + ttl)))
  }

  /** `acquire` on an already normalised scope; the first check, before the transaction, sees an earlier store. */
  function Acquire(earlier: Store, s: Store, id: LeaseId, task: TaskId, holder: AgentId, scope: seq<string>, ttl: int,
      readAt: int, now: int): Result<Store> {
    if ttl <= 0 then Err(INVALID_ARGUMENT)
    else if FindConflicts(earlier, scope, holder, Some(task), readAt) != {} then Err(SCOPE_CONFLICT)
    else AcquireTx(s, id, task, holder, scope, ttl, readAt, now)
  }

  /** Another quarantined scope covers the path, or the path cannot be compared with it. */
  predicate QuarantinedElsewhere(s: Store, id: LeaseId, path: string, answer: Result<bool>) {
    exists other :: other in s.leases && other != id && s.leases[other].state == LeaseState.QUARANTINED
      && ScopeAllows(s.leases[other].scope, path) == answer
  }

  /** `assertWritable`: the code it throws, or `Ok`. */
  function PathWritable(s: Store, id: LeaseId, holder: AgentId, path: string, now: int): Result<()> {
    if id !in s.leases then Err(NOT_FOUND)
    else
      var l := s.leases[id];
      if l.state != HELD || l.expiresAt <= now then Err(LEASE_INVALID)
      else if l.holder != holder then Err(NOT_OWNER)
      else if QuarantinedElsewhere(s, id, path, Ok(true)) then Err(RUNTIME_STOP_UNCONFIRMED)
      else if QuarantinedElsewhere(s, id, path, Err(INVALID_ARGUMENT)) then Err(INVALID_ARGUMENT)
      else
        var allowed :- ScopeAllows(l.scope, path);
        if allowed then Ok(()) else Err(SCOPE_CONFLICT)
  }

  function Renew(s: Store, id: LeaseId, holder: AgentId, ttl: int, now: int): Result<Store> {
    if id !in s.leases then Err(NOT_FOUND)
    else
      var l := s.leases[id];
      if l.holder != holder then Err(NOT_OWNER)
      else if l.state != HELD || l.expiresAt <= now then Err(LEASE_INVALID)
      else Ok(PutLease(s, id, l.(expiresAt := now + ttl)))
  }

  function Release(s: Store, id: LeaseId, holder: AgentId): Result<Store> {
    if id !in s.leases then Err(NOT_FOUND)
    else
      var l := s.leases[id];
      if l.holder != holder then Err(NOT_OWNER)
      else if l.state == LeaseState.QUARANTINED || (l.state == HELD && Fenced(s, id)) then Err(RUNTIME_STOP_UNCONFIRMED)
      else if l.state != HELD then Ok(s)
      else Ok(PutLease(s, id, l.(state := RELEASED)))
  }

  /** What becomes of one lease when timed-out leases are reaped. */
  function Reaped(s: Store, id: LeaseId, now: int): Lease
    requires id in s.leases
  {
    var l := s.leases[id];
    if l.state != HELD || l.expiresAt > now then l
    else if Fenced(s, id) then l.(state := LeaseState.QUARANTINED)
    else l.(state := EXPIRED)
  }

  function ReapExpired(s: Store, now: int): Store {
    s.(leases := map id | id in s.leases :: Reaped(s, id, now))
  }

  function Quarantine(s: Store, id: LeaseId, holder: AgentId): Result<Store> {
    if id !in s.leases then Err(NOT_FOUND)
    else
      var l := s.leases[id];
      if l.holder != holder then Err(NOT_OWNER)
      else if l.state == LeaseState.QUARANTINED then Ok(s)
      else if l.state != HELD then Err(LEASE_INVALID)
      else Ok(PutLease(s, id, l.(state := LeaseState.QUARANTINED)))
  }

  function ConfirmStopped(s: Store, id: LeaseId, holder: AgentId): Result<Store> {
    if id !in s.leases then Err(NOT_FOUND)
    else
      var l := s.leases[id];
      if l.holder != holder then Err(NOT_OWNER)
      else if l.task !in s.executions || s.executions[l.task].lease != Some(id) || !s.executions[l.task].stopConfirmed
      then Err(RUNTIME_STOP_UNCONFIRMED)
      else Release(if l.state == LeaseState.QUARANTINED then PutLease(s, id, l.(state := HELD)) else s, id, holder)
  }

  // ---------------------------------------------------------------- what the operations mean

  /**
   * A path may be written under a lease exactly while the holder's lease runs, covers it, and no quarantine stands in
   * the way.
   */
  lemma WritableExactly(s: Store, id: LeaseId, holder: AgentId, path: string, now: int)
    ensures PathWritable(s, id, holder, path, now) == Ok(()) <==>
      && id in s.leases && s.leases[id].holder == holder && s.leases[id].state == HELD && now < s.leases[id].expiresAt
      && ScopeAllows(s.leases[id].scope, path) == Ok(true)
      && forall other :: other in s.leases && s.leases[other].state == LeaseState.QUARANTINED ==>
           ScopeAllows(s.leases[other].scope, path) == Ok(false)
  {
    hide ScopeAllows;
    forall other | other in s.leases && other != id && s.leases[other].state == LeaseState.QUARANTINED
      ensures ScopeAllows(s.leases[other].scope, path) == Ok(false)
        || QuarantinedElsewhere(s, id, path, Ok(true)) || QuarantinedElsewhere(s, id, path, Err(INVALID_ARGUMENT))
    {
      QuarantineAnswers(s, id, path, other);
    }
  }

  /** A quarantined scope lets the path pass, covers it, or cannot be compared with it. */
  lemma QuarantineAnswers(s: Store, id: LeaseId, path: string, other: LeaseId)
    requires other in s.leases && other != id && s.leases[other].state == LeaseState.QUARANTINED
    ensures ScopeAllows(s.leases[other].scope, path) == Ok(false)
      || QuarantinedElsewhere(s, id, path, Ok(true)) || QuarantinedElsewhere(s, id, path, Err(INVALID_ARGUMENT))
  {
    hide ScopeAllows;
    var answer := ScopeAllows(s.leases[other].scope, path);
    ScopeAllowsCodes(s.leases[other].scope, path);
    assert QuarantinedElsewhere(s, id, path, answer);
    match answer {
      case Ok(b) =>
        if b { assert answer == Ok(true); } else { assert answer == Ok(false); }
      case Err(c) =>
        assert answer == Err(INVALID_ARGUMENT);
    }
  }

  /** Whoever acquires a scope may write its paths at once and until the lease times out, quarantine apart. */
  lemma AcquiredIsWritable(s: Store, id: LeaseId, t: TaskId, holder: AgentId, scope: seq<string>, ttl: int, readAt: int,
      now: int, path: string, later: int)
    requires id !in s.leases && AcquireTx(s, id, t, holder, scope, ttl, readAt, now).Ok?
      && ScopeAllows(scope, path) == Ok(true)
    requires forall other :: other in s.leases && s.leases[other].state == LeaseState.QUARANTINED ==>
      ScopeAllows(s.leases[other].scope, path) == Ok(false)
    ensures PathWritable(AcquireTx(s, id, t, holder, scope, ttl, readAt, now).value, id, holder, path, later) == Ok(())
      <==> later < readAt + ttl
  {
    hide ScopeAllows, FindConflicts, PathWritable;
    var s' := AcquireTx(s, id, t, holder, scope, ttl, readAt, now).value;
    WritableExactly(s', id, holder, path, later);
    assert forall other :: other in s'.leases && other != id ==>
      other in s.leases && s'.leases[other] == s.leases[other];
  }

  /** All leases but one are as live as before, at any time. */
  ghost predicate OthersAsLive(s: Store, s': Store, id: LeaseId) {
    && s'.leases.Keys == s.leases.Keys && s'.executions == s.executions
    && forall other, later :: other in s.leases && other != id ==>
      (IsLive(s', other, later) <==> IsLive(s, other, later))
  }

  lemma PutKeepsOthers(s: Store, id: LeaseId, l: Lease)
    requires id in s.leases && l.task == s.leases[id].task
    ensures OthersAsLive(s, PutLease(s, id, l), id)
  {
    var s' := PutLease(s, id, l);
    forall other, later | other in s.leases && other != id ensures IsLive(s', other, later) <==>
      IsLive(s, other, later) {
      assert Fenced(s', other) <==> Fenced(s, other);
    }
  }

  /**
   * Renewal is the holder's alone, while the lease runs; the lease then runs to the new time, and nobody else's
   * changes.
   */
  lemma RenewedRunsOn(s: Store, id: LeaseId, holder: AgentId, ttl: int, now: int)
    ensures Renew(s, id, holder, ttl, now).Ok? <==>
      id in s.leases && s.leases[id].holder == holder && s.leases[id].state == HELD && now < s.leases[id].expiresAt
    ensures Renew(s, id, holder, ttl, now).Ok? ==>
      var s' := Renew(s, id, holder, ttl, now).value;
      && OthersAsLive(s, s', id)
      && forall later :: IsLive(s', id, later) <==> later < now + ttl || Fenced(s, id)
  {
    if Renew(s, id, holder, ttl, now).Ok? {
      PutKeepsOthers(s, id, s.leases[id].(expiresAt := now + ttl));
    }
  }

  /** The holder is refused a release exactly when the lease is live at any time; otherwise it is never live again. */
  lemma ReleasedForGood(s: Store, id: LeaseId, holder: AgentId)
    requires id in s.leases && s.leases[id].holder == holder
    ensures Release(s, id, holder).Err? <==> forall later :: IsLive(s, id, later)
    ensures Release(s, id, holder).Ok? ==>
      var s' := Release(s, id, holder).value;
      && OthersAsLive(s, s', id) && (forall later :: !IsLive(s', id, later)) && Release(s', id, holder) == Ok(s')
  {
    var l := s.leases[id];
    assert l.state == HELD && !Fenced(s, id) ==> !IsLive(s, id, l.expiresAt);
    assert l.state != HELD && l.state != LeaseState.QUARANTINED ==> !IsLive(s, id, 0);
    PutKeepsOthers(s, id, l.(state := RELEASED));
  }

  /**
   * Quarantine takes a lease that could still be live at some time; it is then live at any time, and cannot be
   * released.
   */
  lemma QuarantinedForNow(s: Store, id: LeaseId, holder: AgentId)
    requires id in s.leases && s.leases[id].holder == holder
    ensures Quarantine(s, id, holder).Ok? <==> exists later :: IsLive(s, id, later)
    ensures Quarantine(s, id, holder).Ok? ==>
      var s' := Quarantine(s, id, holder).value;
      && OthersAsLive(s, s', id) && (forall later :: IsLive(s', id, later))
      && Release(s', id, holder).Err? && Quarantine(s', id, holder) == Ok(s')
  {
    var l := s.leases[id];
    assert l.state == HELD ==> IsLive(s, id, l.expiresAt - 1);
    assert l.state == LeaseState.QUARANTINED ==> IsLive(s, id, 0);
    PutKeepsOthers(s, id, l.(state := LeaseState.QUARANTINED));
  }

  /** Positive stop evidence of the execution that names the lease, and nothing else, ends it for good. */
  lemma ConfirmedForGood(s: Store, id: LeaseId, holder: AgentId)
    ensures ConfirmStopped(s, id, holder).Ok? <==>
      && id in s.leases && s.leases[id].holder == holder
      && s.leases[id].task in s.executions && s.executions[s.leases[id].task].lease == Some(id)
      && s.executions[s.leases[id].task].stopConfirmed
    ensures ConfirmStopped(s, id, holder).Ok? ==>
      forall later :: !IsLive(ConfirmStopped(s, id, holder).value, id, later)
  {
  }

  /** A confirmed stop undoes a quarantine: what is left is what the release would have left without it. */
  lemma ConfirmUndoesQuarantine(s: Store, id: LeaseId, holder: AgentId)
    requires id in s.leases && s.leases[id].state == HELD && ConfirmStopped(s, id, holder).Ok?
    ensures Quarantine(s, id, holder).Ok?
    ensures ConfirmStopped(Quarantine(s, id, holder).value, id, holder) == Release(s, id, holder) ==
      ConfirmStopped(s, id, holder)
  {
    var l := s.leases[id];
    assert s.leases[id := l.(state := LeaseState.QUARANTINED)][id := l] == s.leases;
  }

  /** The leases part-way through reaping, when those of `todo` are still to come. */
  ghost function ReapedBut(s: Store, todo: set<LeaseId>, now: int): map<LeaseId, Lease> {
    map id | id in s.leases :: if id in todo then s.leases[id] else Reaped(s, id, now)
  }

  ghost predicate MarkedExpired(s: Store, id: LeaseId, now: int)
    requires id in s.leases
  {
    s.leases[id].state == HELD && Reaped(s, id, now).state == EXPIRED
  }

  lemma UnlistedStay(s: Store, now: int)
    ensures s.leases == ReapedBut(s, (set id | id in s.leases && Listed(s.leases[id])), now)
    ensures forall id :: id in s.leases && !Listed(s.leases[id]) ==> !MarkedExpired(s, id, now)
  {
  }

  lemma ReapedAs(s: Store, v: Store, id: LeaseId, now: int)
    requires id in s.leases && id in v.leases && v.leases[id] == s.leases[id] && v.executions == s.executions
      && Listed(s.leases[id])
    ensures var l := v.leases[id];
      Reaped(s, id, now) == (if l.state != HELD || l.expiresAt > now then l
        else if Fenced(v, id) then l.(state := LeaseState.QUARANTINED) else l.(state := EXPIRED))
  {
  }

  // ---------------------------------------------------------------- the service

  /** `LeaseManager`: every method commits exactly the change its specification describes, or none. */
  class Leases {
    const store: Database

    constructor (store: Database)
      ensures this.store == store
    {
      this.store := store;
    }

    /** The loop of `findConflicts`. */
    method ListConflicts(scope: seq<string>, holder: AgentId, task: Option<TaskId>,
        now: int) returns (out: seq<LeaseId>)
      ensures forall id :: id in out <==> id in FindConflicts(store.View(), scope, holder, task, now)
      ensures |out| == |FindConflicts(store.View(), scope, holder, task, now)|
    {
      hide Conflict, IsLive, OwnExtension, FencesTask;
      ghost var s := store.View();
      ghost var found: set<LeaseId> := {};
      out := [];
      var todo := set id | id in store.leases && Listed(store.leases[id]);
      while todo != {}
        invariant forall id :: id in todo ==> id in s.leases && Listed(s.leases[id])
        invariant forall id :: id in found <==> id in s.leases && id !in todo && Blocks(s, id, scope, holder, task, now)
        invariant forall id :: id in out <==> id in found
        invariant |out| == |found|
        decreases |todo|
      {
        var id :| id in todo;
        todo := todo - {id};
        if IsLive(store.View(), id, now) {
          if !OwnExtension(store.View(), id, holder, task) {
            var overlapping := Conflict(scope, store.leases[id].scope);
            var fencedTask := FencesTask(store.View(), id, task);
            if overlapping || fencedTask {
              out := out + [id];
              found := found + {id};
            }
          }
        }
      }
      assert found == FindConflicts(s, scope, holder, task, now);
    }

    method AcquireLease(id: LeaseId, task: TaskId, holder: AgentId, scope: seq<string>, ttl: int, readAt: int,
        now: int) returns (r: Result<()>)
      requires id !in store.leases
      modifies store`leases
      ensures match Acquire(old(store.View()), old(store.View()), id, task, holder, scope, ttl, readAt, now)
        case Ok(s) => r == Ok(()) && store.View() == s
        case Err(c) => r == Err(c) && store.View() == old(store.View())
    {
      if ttl <= 0 { return Err(INVALID_ARGUMENT); }
      var conflicts := ListConflicts(scope, holder, Some(task), readAt);
      EmptyOrNot(conflicts, FindConflicts(store.View(), scope, holder, Some(task), readAt));
      if |conflicts| > 0 { return Err(SCOPE_CONFLICT); }
      var raced := ListConflicts(scope, holder, Some(task), now);
      EmptyOrNot(raced, FindConflicts(store.View(), scope, holder, Some(task), now));
      if |raced| > 0 { return Err(SCOPE_CONFLICT); }
      store.leases := store.leases[id := Lease(task, holder, scope, HELD, readAt, readAt + ttl)];
      return Ok(());
    }

    method AssertWritable(id: LeaseId, holder: AgentId, path: string, now: int) returns (r: Result<()>)
      ensures r == PathWritable(store.View(), id, holder, path, now)
    {
      if id !in store.leases { return Err(NOT_FOUND); }
      var l := store.leases[id];
      if l.state != HELD || l.expiresAt <= now { return Err(LEASE_INVALID); }
      if l.holder != holder { return Err(NOT_OWNER); }
      if QuarantinedElsewhere(store.View(), id, path, Ok(true)) { return Err(RUNTIME_STOP_UNCONFIRMED); }
      if QuarantinedElsewhere(store.View(), id, path, Err(INVALID_ARGUMENT)) { return Err(INVALID_ARGUMENT); }
      var allowed := ScopeAllows(l.scope, path);
      if allowed.Err? { return Err(allowed.code); }
      if !allowed.value { return Err(SCOPE_CONFLICT); }
      return Ok(());
    }

    method RenewLease(id: LeaseId, holder: AgentId, ttl: int, now: int) returns (r: Result<()>)
      modifies store`leases
      ensures match Renew(old(store.View()), id, holder, ttl, now)
        case Ok(s) => r == Ok(()) && store.View() == s
        case Err(c) => r == Err(c) && store.View() == old(store.View())
    {
      if id !in store.leases { return Err(NOT_FOUND); }
      var l := store.leases[id];
      if l.holder != holder { return Err(NOT_OWNER); }
      if l.state != HELD || l.expiresAt <= now { return Err(LEASE_INVALID); }
      store.leases := store.leases[id := l.(expiresAt := now + ttl)];
      return Ok(());
    }

    method ReleaseLease(id: LeaseId, holder: AgentId) returns (r: Result<()>)
      modifies store`leases
      ensures match Release(old(store.View()), id, holder)
        case Ok(s) => r == Ok(()) && store.View() == s
        case Err(c) => r == Err(c) && store.View() == old(store.View())
    {
      if id !in store.leases { return Err(NOT_FOUND); }
      var l := store.leases[id];
      if l.holder != holder { return Err(NOT_OWNER); }
      if l.state == LeaseState.QUARANTINED || (l.state == HELD && Fenced(store.View(), id)) {
        return Err(RUNTIME_STOP_UNCONFIRMED);
      }
      if l.state != HELD { return Ok(()); }
      store.leases := store.leases[id := l.(state := RELEASED)];
      return Ok(());
    }

    method QuarantineLease(id: LeaseId, holder: AgentId) returns (r: Result<()>)
      modifies store`leases
      ensures match Quarantine(old(store.View()), id, holder)
        case Ok(s) => r == Ok(()) && store.View() == s
        case Err(c) => r == Err(c) && store.View() == old(store.View())
    {
      if id !in store.leases { return Err(NOT_FOUND); }
      var l := store.leases[id];
      if l.holder != holder { return Err(NOT_OWNER); }
      if l.state == LeaseState.QUARANTINED { return Ok(()); }
      if l.state != HELD { return Err(LEASE_INVALID); }
      store.leases := store.leases[id := l.(state := LeaseState.QUARANTINED)];
      return Ok(());
    }

    /** The loop of `reapExpired`; it returns the leases it marked EXPIRED. */
    method Reap(now: int) returns (reaped: set<LeaseId>)
      modifies store`leases
      ensures store.View() == ReapExpired(old(store.View()), now)
      ensures forall id :: id in reaped <==>
        id in old(store.leases) && old(store.leases)[id].state == HELD && store.leases[id].state == EXPIRED
    {
      hide Fenced, Reaped;
      ghost var s := store.View();
      reaped := {};
      var todo := set id | id in store.leases && Listed(store.leases[id]);
      UnlistedStay(s, now);
      while todo != {}
        invariant forall id :: id in todo ==> id in s.leases && Listed(s.leases[id])
        invariant store.executions == s.executions && store.tasks == s.tasks
        invariant store.leases == ReapedBut(s, todo, now)
        invariant forall id :: id in reaped <==> id in s.leases && id !in todo && MarkedExpired(s, id, now)
        decreases |todo|
      {
        var id :| id in todo;
        todo := todo - {id};
        var l := store.leases[id];
        ReapedAs(s, store.View(), id, now);
        assert ReapedBut(s, todo, now) == store.leases[id := Reaped(s, id, now)];
        if l.state == LeaseState.QUARANTINED { continue; }
        if l.expiresAt > now { continue; }
        if Fenced(store.View(), id) {
          var q := QuarantineLease(id, l.holder);
          continue;
        }
        store.leases := store.leases[id := l.(state := EXPIRED)];
        reaped := reaped + {id};
      }
      assert store.leases == ReapExpired(s, now).leases;
    }

    method Confirm(id: LeaseId, holder: AgentId) returns (r: Result<()>)
      modifies store`leases
      ensures match ConfirmStopped(old(store.View()), id, holder)
        case Ok(s) => r == Ok(()) && store.View() == s
        case Err(c) => r == Err(c) && store.View() == old(store.View())
    {
      if id !in store.leases { return Err(NOT_FOUND); }
      var l := store.leases[id];
      if l.holder != holder { return Err(NOT_OWNER); }
      if l.task !in store.executions || store.executions[l.task].lease != Some(id)
        || !store.executions[l.task].stopConfirmed {
        return Err(RUNTIME_STOP_UNCONFIRMED);
      }
      if l.state == LeaseState.QUARANTINED {
        store.leases := store.leases[id := l.(state := HELD)];
      }
      r := ReleaseLease(id, holder);
    }
  }

  lemma EmptyOrNot<T>(out: seq<T>, s: set<T>)
    requires forall x :: x in out <==> x in s
    ensures |out| == 0 <==> s == {}
  {
    if s != {} {
      var x :| x in s;
      assert x in out;
    }
    if |out| > 0 {
      assert out[0] in s;
    }
  }
}
