/**
 * Reading the change log of the shared memory in byte-budgeted pages: `getChanges`
 * (shared/control-plane/src/memory-service.ts:171-193).
 */
module ChangePaging {
  import opened Bridge
  import opened MemoryLog
  import opened MemoryPaging

  datatype ChangePage = ChangePage(changes: seq<Note>, cursor: nat, head: nat, hasMore: bool)

  /** The bytes of everything in a page but the text of `has_more`; it may differ between calls. */
  type ChangeWeigher = (seq<Note>, nat) -> nat

  function ChangeBytes(w: ChangeWeigher, changes: seq<Note>, cursor: nat, hasMore: bool): nat {
    w(changes, cursor) + FlagBytes(hasMore)
  }

  /** The changes accepted so far and the cursor of the last one. */
  datatype Taken = Taken(changes: seq<Note>, cursor: nat)

  function Take(t: Taken, row: Note): Taken {
    Taken(t.changes + [row], row.cursor)
  }

  /** The loop of `getChanges` over the rows still to come. */
  function FillChanges(w: ChangeWeigher, budget: nat, rows: seq<Note>, t: Taken): Result<Taken> {
    if rows == [] then Ok(t)
    else
      var next := Take(t, rows[0]);
      if ChangeBytes(w, next.changes, next.cursor, false) <= budget then FillChanges(w, budget, rows[1..], next)
      else if t.changes == [] then Err(INVALID_ARGUMENT)
      else Ok(t)
  }

  /** `getChanges` on the rows its query returned, at most one more than the limit. */
  function PageOfChanges(w: ChangeWeigher, budget: nat, rows: seq<Note>, limit: nat, head: nat,
      after: nat): Result<ChangePage> {
    if ChangeBytes(w, [], after, false) > budget then Err(INVALID_ARGUMENT)
    else
      var t :- FillChanges(w, budget, First(rows, limit), Taken([], after));
      var hasMore := |t.changes| < |rows|;
      if ChangeBytes(w, t.changes, t.cursor, hasMore) > budget then Err(INTERNAL)
      else Ok(ChangePage(t.changes, t.cursor, head, hasMore))
  }

  method BuildChanges(w: ChangeWeigher, budget: nat, rows: seq<Note>, limit: nat, head: nat,
      after: nat) returns (r: Result<ChangePage>)
    ensures r == PageOfChanges(w, budget, rows, limit, head, after)
  {
    var changes: seq<Note>, cursor := [], after;
    if ChangeBytes(w, changes, cursor, false) > budget { return Err(INVALID_ARGUMENT); }
    var slice := First(rows, limit);
    ghost var whole := FillChanges(w, budget, slice, Taken(changes, cursor));
    var i := 0;
    while i < |slice|
      invariant 0 <= i <= |slice|
      invariant FillChanges(w, budget, slice[i..], Taken(changes, cursor)) == whole
    {
      var row := slice[i];
      assert slice[i..][0] == row && slice[i..][1..] == slice[i + 1..];
      if ChangeBytes(w, changes + [row], row.cursor, false) > budget {
        if |changes| == 0 { return Err(INVALID_ARGUMENT); }
        break;
      }
      changes, cursor := changes + [row], row.cursor;
      i := i + 1;
    }
    var hasMore := |changes| < |rows|;
    if ChangeBytes(w, changes, cursor, hasMore) > budget { return Err(INTERNAL); }
    return Ok(ChangePage(changes, cursor, head, hasMore));
  }

  datatype ChangeRequest = ChangeRequest(
    scope: string, changeCursor: Option<int>, untilCursor: Option<int>, limit: Option<int>, maxBytes: Option<int>)

  /** `getChanges` on the state of the service. */
  function GetChanges(m: Memory, w: ChangeWeigher, r: ChangeRequest): Result<ChangePage> {
    var limit :- Ranged(r.limit, 25, 1, 100);
    var budget :- Ranged(r.maxBytes, 16 * 1024, 2048, 64 * 1024);
    var head :- Ranged(r.untilCursor, m.lastEvent, 0, m.lastEvent);
    var after :- Ranged(r.changeCursor, 0, 0, head);
    var rows := First(Changes(m.rows, r.scope, after, head), limit + 1);
    PageOfChanges(w, budget, rows, limit, head, after)
  }

  // ---------------------------------------------------------------- one page

  function CursorAfter(after: nat, rows: seq<Note>): nat {
    if rows == [] then after else rows[|rows| - 1].cursor
  }

  lemma {:induction false} FillTakesFirst(w: ChangeWeigher, budget: nat, done: seq<Note>, rows: seq<Note>, t: Taken,
      after: nat)
    requires t.changes == done && t.cursor == CursorAfter(after, done)
      && ChangeBytes(w, done, t.cursor, false) <= budget
    ensures var r := FillChanges(w, budget, rows, t);
      if r.Err? then r.code == INVALID_ARGUMENT && done == [] else
        var u := r.value; var n := |u.changes|;
        && |done| <= n <= |done| + |rows| && u.changes == (done + rows)[..n]
          && u.cursor == CursorAfter(after, u.changes)
        && (rows != [] && done == [] ==> n > 0) && ChangeBytes(w, u.changes, u.cursor, false) <= budget
    decreases |rows|
  {
    assert (done + rows)[..|done|] == done;
    if rows != [] {
      var next := Take(t, rows[0]);
      if ChangeBytes(w, next.changes, next.cursor, false) <= budget {
        FillTakesFirst(w, budget, done + [rows[0]], rows[1..], next, after);
        assert done + [rows[0]] + rows[1..] == done + rows;
      }
    }
  }

  /** A page of the rest of the log: its first rows, at least one if there is any, and where to go on. */
  ghost predicate AdvancesLog(rest: seq<Note>, after: nat, page: ChangePage) {
    var n := |page.changes|;
    && n <= |rest| && (rest != [] ==> n > 0)
    && page.changes == rest[..n]
    && page.cursor == CursorAfter(after, page.changes)
    && (page.hasMore <==> n < |rest|)
  }

  /** `true` is shorter than `false`. */
  lemma FlagOnlyShortens(w: ChangeWeigher, changes: seq<Note>, cursor: nat)
    ensures ChangeBytes(w, changes, cursor, true) <= ChangeBytes(w, changes, cursor, false)
  {
  }

  /** Every page fits its budget and advances; the closing check never fails, whatever rows weigh. */
  lemma ChangePageIsExact(w: ChangeWeigher, budget: nat, rest: seq<Note>, limit: nat, head: nat, after: nat)
    requires limit > 0
    ensures var r := PageOfChanges(w, budget, First(rest, limit + 1), limit, head, after);
      && r != Err(INTERNAL)
      && (r.Ok? ==> AdvancesLog(rest, after, r.value) && r.value.head == head && |r.value.changes| <= limit)
      && (r.Ok? ==> ChangeBytes(w, r.value.changes, r.value.cursor, r.value.hasMore) <= budget)
  {
    hide ChangeBytes;
    var rows := First(rest, limit + 1);
    var slice, start := First(rows, limit), Taken([], after);
    if ChangeBytes(w, [], after, false) <= budget {
      FillTakesFirst(w, budget, [], slice, start, after);
      hide FillChanges;
      assert [] + slice == slice;
      var r := FillChanges(w, budget, slice, start);
      assert r.Ok? ==> slice[..|r.value.changes|] == rest[..|r.value.changes|];
      if r.Ok? { FlagOnlyShortens(w, r.value.changes, r.value.cursor); }
    }
  }

  lemma GetChangesAdvances(m: Memory, w: ChangeWeigher, r: ChangeRequest)
    ensures GetChanges(m, w, r) != Err(INTERNAL)
    ensures GetChanges(m, w, r).Ok? ==>
      var page := GetChanges(m, w, r).value;
      var after := if r.changeCursor.None? then 0 else r.changeCursor.value;
      && page.head <= m.lastEvent && (r.untilCursor.Some? ==> page.head == r.untilCursor.value)
        && 0 <= after <= page.head
      && AdvancesLog(Changes(m.rows, r.scope, after, page.head), after, page)
  {
    hide PageOfChanges, AdvancesLog, First, Changes, ChangeBytes;
    if var l, b := Ranged(r.limit, 25, 1, 100), Ranged(r.maxBytes, 16 * 1024, 2048, 64 * 1024); l.Ok? && b.Ok? {
      var limit, budget := Ranged(r.limit, 25, 1, 100).value, Ranged(r.maxBytes, 16 * 1024, 2048, 64 * 1024).value;
      var h := Ranged(r.untilCursor, m.lastEvent, 0, m.lastEvent);
      if h.Ok? && Ranged(r.changeCursor, 0, 0, h.value).Ok? {
        var after := Ranged(r.changeCursor, 0, 0, h.value).value;
        ChangePageIsExact(w, budget, Changes(m.rows, r.scope, after, h.value), limit, h.value, after);
      }
    }
  }

  // ---------------------------------------------------------------- following change_cursor

  datatype ChangeCall = ChangeCall(at: nat, w: ChangeWeigher, limit: Option<int>, maxBytes: Option<int>)

  /** The first call, or the one that follows a page: the same head, from the page's cursor on. */
  function ChangeRequestFor(base: ChangeRequest, call: ChangeCall, previous: Option<ChangePage>): ChangeRequest {
    var sized := base.(limit := call.limit, maxBytes := call.maxBytes);
    if previous.None? then sized
      else sized.(changeCursor := Some(previous.value.cursor), untilCursor := Some(previous.value.head))
  }

  ghost predicate ChangeCallAnswered(states: seq<Memory>, base: ChangeRequest, calls: seq<ChangeCall>,
      pages: seq<ChangePage>, i: nat)
    requires |calls| == |pages| && i < |pages|
  {
    && calls[i].at < |states|
    && var r := ChangeRequestFor(base, calls[i], if i == 0 then None else Some(pages[i - 1]));
       GetChanges(states[calls[i].at], calls[i].w, r) == Ok(pages[i])
  }

  /** The reader follows the cursor while the log grows. */
  ghost predicate ReadingLog(states: seq<Memory>, base: ChangeRequest, calls: seq<ChangeCall>, pages: seq<ChangePage>) {
    && |calls| == |pages| >= 1
    && (forall i :: 0 <= i < |calls| ==> calls[0].at <= calls[i].at < |states|)
    && (forall i :: 0 <= i < |pages| ==> ChangeCallAnswered(states, base, calls, pages, i))
    && (forall i :: 0 <= i < |pages| - 1 ==> pages[i].hasMore)
  }

  function Start(base: ChangeRequest): int {
    if base.changeCursor.None? then 0 else base.changeCursor.value
  }

  function Concatenated(pages: seq<ChangePage>): seq<Note> {
    if pages == [] then [] else Concatenated(pages[..|pages| - 1]) + pages[|pages| - 1].changes
  }

  /** Asking again from the n-th change gives the rest of the log. */
  lemma AskForRest(rows: seq<Note>, scope: string, after: nat, head: nat, n: nat)
    requires Valid(rows) && after <= head && 0 < n <= |Changes(rows, scope, after, head)|
    ensures Changes(rows, scope, Changes(rows, scope, after, head)[n - 1].cursor, head) ==
      Changes(rows, scope, after, head)[n..]
  {
    var all := Changes(rows, scope, after, head);
    var c := all[n - 1].cursor;
    ChangesExact(rows, scope, after, head);
    assert all[n - 1] in all;
    ChangesSplit(rows, scope, after, c, head);
    ChangesExact(rows, scope, after, c);
    ChangesExact(rows, scope, c, head);
    hide Changes, Valid;
    SplitPoint(all, Changes(rows, scope, after, c), Changes(rows, scope, c, head), n);
  }

  lemma SplitPoint(all: seq<Note>, low: seq<Note>, high: seq<Note>, n: nat)
    requires all == low + high && CursorOrdered(all) && 0 < n <= |all|
    requires forall m :: m in low ==> m.cursor <= all[n - 1].cursor
    requires forall m :: m in high ==> m.cursor > all[n - 1].cursor
    ensures high == all[n..]
  {
    forall i | |low| <= i < |all| ensures all[i].cursor > all[n - 1].cursor {
      assert all[i] in high;
    }
    forall i | 0 <= i < |low| ensures all[i].cursor <= all[n - 1].cursor {
      assert all[i] in low;
    }
    assert n < |all| ==> all[n - 1].cursor < all[n].cursor;
  }

  ghost predicate LogReadSoFar(wanted: seq<Note>, after: nat, pages: seq<ChangePage>, n: nat) {
    && pages != [] && n <= |wanted|
    && Concatenated(pages) == wanted[..n]
    && (wanted != [] ==> |pages| <= n)
    && (pages[|pages| - 1].hasMore <==> n < |wanted|)
    && pages[|pages| - 1].cursor == CursorAfter(after, wanted[..n])
  }

  lemma LogReadOneMore(wanted: seq<Note>, after: nat, pages: seq<ChangePage>, n: nat, page: ChangePage)
    requires LogReadSoFar(wanted, after, pages, n) && n < |wanted|
      && AdvancesLog(wanted[n..], pages[|pages| - 1].cursor, page)
    ensures LogReadSoFar(wanted, after, pages + [page], n + |page.changes|)
  {
    var k := |page.changes|;
    assert (pages + [page])[..|pages|] == pages;
    assert wanted[..n] + wanted[n..][..k] == wanted[..n + k];
  }

  lemma FirstLogPage(wanted: seq<Note>, after: nat, page: ChangePage)
    requires AdvancesLog(wanted, after, page)
    ensures LogReadSoFar(wanted, after, [page], |page.changes|)
  {
    assert [page][..0] == [];
    assert Concatenated([page]) == page.changes;
  }

  lemma ReadingLogPrefix(states: seq<Memory>, base: ChangeRequest, calls: seq<ChangeCall>, pages: seq<ChangePage>,
      n: nat)
    requires ReadingLog(states, base, calls, pages) && 0 < n <= |pages|
    ensures ReadingLog(states, base, calls[..n], pages[..n])
  {
    hide GetChanges;
    forall i | 0 <= i < n ensures ChangeCallAnswered(states, base, calls[..n], pages[..n], i) {
      assert ChangeCallAnswered(states, base, calls, pages, i);
    }
  }

  /** The changes the reader asked for: from its cursor up to the first page's head. */
  ghost predicate WantedChanges(states: seq<Memory>, base: ChangeRequest, calls: seq<ChangeCall>,
      pages: seq<ChangePage>, wanted: seq<Note>)
    requires ReadingLog(states, base, calls, pages)
  {
    0 <= Start(base) <= pages[0].head <= states[calls[0].at].lastEvent
    && wanted == Changes(states[calls[0].at].rows, base.scope, Start(base), pages[0].head)
  }

  lemma {:induction false} LogReadingAdvances(states: seq<Memory>, steps: seq<Step>, base: ChangeRequest,
      calls: seq<ChangeCall>, pages: seq<ChangePage>)
    returns (wanted: seq<Note>, n: nat)
    requires Run(states, steps) && ReadingLog(states, base, calls, pages)
    ensures WantedChanges(states, base, calls, pages, wanted) && LogReadSoFar(wanted, Start(base), pages, n)
    ensures pages[|pages| - 1].head == pages[0].head
    decreases |pages|
  {
    hide GetChanges, Changes, Run, AdvancesLog, LogReadSoFar;
    var last := |pages| - 1;
    if last == 0 {
      assert ChangeCallAnswered(states, base, calls, pages, 0);
      GetChangesAdvances(states[calls[0].at], calls[0].w, ChangeRequestFor(base, calls[0], None));
      wanted := Changes(states[calls[0].at].rows, base.scope, Start(base), pages[0].head);
      FirstLogPage(wanted, Start(base), pages[0]);
      assert pages == [pages[0]];
      n := |pages[0].changes|;
    } else {
      ReadingLogPrefix(states, base, calls, pages, last);
      var earlier := pages[..last];
      var k: nat;
      wanted, k := LogReadingAdvances(states, steps, base, calls[..last], earlier);
      NextLogPage(states, steps, base, calls, pages, wanted, k);
      LogReadOneMore(wanted, Start(base), earlier, k, pages[last]);
      assert pages == earlier + [pages[last]];
      n := k + |pages[last].changes|;
    }
  }

  lemma NextLogPage(states: seq<Memory>, steps: seq<Step>, base: ChangeRequest, calls: seq<ChangeCall>,
      pages: seq<ChangePage>, wanted: seq<Note>, k: nat)
    requires Run(states, steps) && ReadingLog(states, base, calls, pages) && |pages| > 1
    requires WantedChanges(states, base, calls, pages, wanted)
      && LogReadSoFar(wanted, Start(base), pages[..|pages| - 1], k)
    requires pages[|pages| - 2].head == pages[0].head
    ensures k < |wanted| && AdvancesLog(wanted[k..], pages[|pages| - 2].cursor, pages[|pages| - 1])
    ensures pages[|pages| - 1].head == pages[0].head
  {
    hide GetChanges, Changes, Run, AdvancesLog;
    var last := |pages| - 1;
    assert pages[..last][last - 1] == pages[last - 1];
    assert pages[last - 1].hasMore;
    assert ChangeCallAnswered(states, base, calls, pages, last);
    var m, head, after := states[calls[last].at], pages[0].head, Start(base);
    GetChangesAdvances(m, calls[last].w, ChangeRequestFor(base, calls[last], Some(pages[last - 1])));
    RunExtends(states, steps, calls[0].at, calls[last].at);
    ChangesFrozen(m.rows, |states[calls[0].at].rows|, base.scope, after, head);
    AskForRest(m.rows, base.scope, after, head, k);
  }

  /**
   * Following `change_cursor` delivers exactly the changes up to the frozen head, each once and in order, in at most as
   * many pages; a reader who held the snapshot at its cursor then holds the snapshot at the head.
   */
  lemma ChangePagingIsExact(states: seq<Memory>, steps: seq<Step>, base: ChangeRequest, calls: seq<ChangeCall>,
      pages: seq<ChangePage>)
    returns (wanted: seq<Note>)
    requires Run(states, steps) && ReadingLog(states, base, calls, pages)
    ensures WantedChanges(states, base, calls, pages, wanted)
    ensures Concatenated(pages) <= wanted && (pages[|pages| - 1].hasMore <==> Concatenated(pages) != wanted)
    ensures |pages| <= if wanted == [] then 1 else |wanted|
    ensures var rows := states[calls[0].at].rows;
      !pages[|pages| - 1].hasMore ==>
        Replay(Replay(map[], Changes(rows, base.scope, 0, Start(base))), Concatenated(pages))
        == Replay(map[], Changes(rows, base.scope, 0, pages[0].head))
  {
    var n: nat;
    wanted, n := LogReadingAdvances(states, steps, base, calls, pages);
    RunExtends(states, steps, calls[0].at, calls[0].at);
    var rows := states[calls[0].at].rows;
    hide Run, Changes;
    assert n == |wanted| ==> wanted[..n] == wanted;
    CatchUp(rows, base.scope, Start(base), pages[0].head);
    if |pages| > 1 {
      ReadingLogPrefix(states, base, calls, pages, 1);
      var w1, n1 := LogReadingAdvances(states, steps, base, calls[..1], pages[..1]);
      assert pages[..1][0].hasMore;
    }
  }
}
