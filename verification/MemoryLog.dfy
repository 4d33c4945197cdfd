/**
 * The shared memory log (shared/control-plane/src/memory-service.ts:81-107 and the table memory_notes of
 * shared/control-plane/src/store/sqlite-store.ts:906-1005).
 *
 * Rows are listed in the order they were inserted. Each query is a function of the rows.
 */
module MemoryLog {
  import opened Bridge
  import opened Text

  datatype Lifecycle = Active | Superseded | Archived

  /** One revision; `body` is everything else the note carries. */
  datatype Note = Note(scope: string, key: string, revision: nat, cursor: nat, lifecycle: Lifecycle, body: string)

  predicate Within(cursor: nat, bound: Option<nat>) {
    bound.None? || cursor <= bound.value
  }

  predicate Selects(m: Note, scope: string, key: string, bound: Option<nat>) {
    m.scope == scope && m.key == key && Within(m.cursor, bound)
  }

  /** `getMemoryNote`: the greatest revision of the key within the bound. */
  function Latest(rows: seq<Note>, scope: string, key: string, bound: Option<nat>): Option<Note> {
    if rows == [] then None
    else
      var earlier, m := Latest(rows[..|rows| - 1], scope, key, bound), rows[|rows| - 1];
      if Selects(m, scope, key, bound)
        && (earlier.None? || earlier.value.revision < m.revision) then Some(m) else earlier
  }

  /** COALESCE(MAX(revision), 0). */
  function MaxRevision(rows: seq<Note>, scope: string, key: string): nat {
    if rows == [] then 0
    else
      var earlier, m := MaxRevision(rows[..|rows| - 1], scope, key), rows[|rows| - 1];
      if m.scope == scope && m.key == key && earlier < m.revision then m.revision else earlier
  }

  /** COALESCE(MAX(change_cursor), 0). */
  function MaxCursor(rows: seq<Note>): nat {
    if rows == [] then 0
    else
      var earlier, m := MaxCursor(rows[..|rows| - 1]), rows[|rows| - 1];
      if earlier < m.cursor then m.cursor else earlier
  }

  /** `insertMemoryNote`. */
  function InsertNote(rows: seq<Note>, note: Note, expected: nat): Result<seq<Note>> {
    if note.revision != expected + 1 then Err(INVALID_ARGUMENT)
    else if note.cursor > MAX_SAFE || note.cursor < 1 then Err(INVALID_ARGUMENT)
    else if MaxRevision(rows, note.scope, note.key) != expected then Err(REVISION_CONFLICT)
    else if note.cursor <= MaxCursor(rows) then Err(INVALID_ARGUMENT)
    else Ok(rows + [note])
  }

  /** `listMemoryChanges` without its row limit. */
  function Changes(rows: seq<Note>, scope: string, after: nat, upTo: nat): seq<Note> {
    if rows == [] then []
    else
      var m := rows[|rows| - 1];
      Changes(rows[..|rows| - 1], scope, after, upTo) + if m.scope == scope && after < m.cursor <= upTo then [m] else []
  }

  datatype Query = Query(scope: string, before: nat, keys: Option<seq<string>>, lifecycles: seq<Lifecycle>,
    after: Option<string>)

  predicate Accepts(q: Query, m: Note) {
    && m.lifecycle in q.lifecycles
    && (q.keys.Some? ==> m.key in q.keys.value)
    && (q.after.Some? ==> Less(q.after.value, m.key))
  }

  function KeysOf(rows: seq<Note>, scope: string): seq<string> {
    if rows == [] then []
    else KeysOf(rows[1..], scope) + if rows[0].scope == scope then [rows[0].key] else []
  }

  function SelectLatest(keys: seq<string>, rows: seq<Note>, q: Query): seq<Note> {
    if keys == [] then []
    else
      var m := Latest(rows, q.scope, keys[0], Some(q.before));
      (if m.Some? && Accepts(q, m.value) then [m.value] else []) + SelectLatest(keys[1..], rows, q)
  }

  /** `listMemoryNotes` without its row limit: the latest revision of each key, filtered, in key order. */
  function ListNotes(rows: seq<Note>, q: Query): seq<Note> {
    SelectLatest(SortDistinct(KeysOf(rows, q.scope)), rows, q)
  }

  /** What a reader of the log computes: the last change of each key wins. */
  function Replay(start: map<string, Note>, changes: seq<Note>): map<string, Note> {
    if changes == [] then start
    else
      var m := changes[|changes| - 1];
      Replay(start, changes[..|changes| - 1])[m.key := m]
  }

  /** The state of the service: the table, and the id of the last event of any kind. */
  datatype Memory = Memory(rows: seq<Note>, lastEvent: nat)

  /** `upsert` once the caller and the draft have been validated; the note's cursor is its event's id. */
  function Upsert(m: Memory, scope: string, key: string, expected: int, lifecycle: Lifecycle,
      body: string): Result<Memory> {
    if expected < 0 || expected > MAX_SAFE - 1 then Err(INVALID_ARGUMENT)
    else
      var current := Latest(m.rows, scope, key, None);
      if (if current.Some? then current.value.revision else 0) != expected then Err(REVISION_CONFLICT)
      else
        var event := m.lastEvent + 1;
        var rows :- InsertNote(m.rows, Note(scope, key, expected + 1, event, lifecycle, body), expected);
        Ok(Memory(rows, event))
  }

  /** The table and the event counter, changed in place. */
  class NoteTable {
    var rows: seq<Note>
    var lastEvent: nat

    function View(): Memory
      reads this
    {
      Memory(rows, lastEvent)
    }

    constructor ()
      ensures View() == Memory([], 0)
    {
      rows, lastEvent := [], 0;
    }

    method InsertMemoryNote(note: Note, expected: nat) returns (r: Result<()>)
      modifies this`rows
      ensures match InsertNote(old(rows), note, expected)
        case Ok(inserted) => r == Ok(()) && rows == inserted
        case Err(c) => r == Err(c) && rows == old(rows)
    {
      if note.revision != expected + 1 { return Err(INVALID_ARGUMENT); }
      if note.cursor > MAX_SAFE || note.cursor < 1 { return Err(INVALID_ARGUMENT); }
      if MaxRevision(rows, note.scope, note.key) != expected { return Err(REVISION_CONFLICT); }
      if note.cursor <= MaxCursor(rows) { return Err(INVALID_ARGUMENT); }
      rows := rows + [note];
      return Ok(());
    }

    /** The event is appended first; a refused insertion rolls it back. */
    method UpsertNote(scope: string, key: string, expected: int, lifecycle: Lifecycle,
        body: string) returns (r: Result<()>)
      modifies this
      ensures match Upsert(old(View()), scope, key, expected, lifecycle, body)
        case Ok(m) => r == Ok(()) && View() == m
        case Err(c) => r == Err(c) && View() == old(View())
    {
      if expected < 0 || expected > MAX_SAFE - 1 { return Err(INVALID_ARGUMENT); }
      var current := Latest(rows, scope, key, None);
      if (if current.Some? then current.value.revision else 0) != expected { return Err(REVISION_CONFLICT); }
      var before := lastEvent;
      lastEvent := lastEvent + 1;
      r := InsertMemoryNote(Note(scope, key, expected + 1, lastEvent, lifecycle, body), expected);
      if r.Err? { lastEvent := before; }
    }
  }

  // ---------------------------------------------------------------- what every log satisfies

  /** Cursors increase over the whole table; the revisions of each key are 1, 2, 3 and so on. */
  ghost predicate Valid(rows: seq<Note>) {
    && CursorOrdered(rows)
    && (forall i :: 0 <= i < |rows| ==> rows[i].cursor >= 1)
    && (forall i :: 0 <= i < |rows| ==> rows[i].revision == MaxRevision(rows[..i], rows[i].scope, rows[i].key) + 1)
  }

  ghost predicate Inv(m: Memory) {
    Valid(m.rows) && forall i :: 0 <= i < |m.rows| ==> m.rows[i].cursor <= m.lastEvent
  }

  lemma ValidPrefix(rows: seq<Note>, n: nat)
    requires Valid(rows) && n <= |rows|
    ensures Valid(rows[..n])
  {
    assert forall i :: 0 <= i < n ==> rows[..n][..i] == rows[..i];
  }

  lemma {:induction false} MaxCursorBounds(rows: seq<Note>)
    ensures forall i :: 0 <= i < |rows| ==> rows[i].cursor <= MaxCursor(rows)
    ensures MaxCursor(rows) == 0 || exists i :: 0 <= i < |rows| && rows[i].cursor == MaxCursor(rows)
  {
    if rows != [] {
      MaxCursorBounds(rows[..|rows| - 1]);
    }
  }

  lemma {:induction false} MaxRevisionBounds(rows: seq<Note>, scope: string, key: string)
    ensures forall i :: 0 <= i < |rows| && rows[i].scope == scope && rows[i].key == key ==>
      rows[i].revision <= MaxRevision(rows, scope, key)
  {
    if rows != [] {
      MaxRevisionBounds(rows[..|rows| - 1], scope, key);
    }
  }

  /** Without a bound, `getMemoryNote` returns the revision that MAX(revision) names. */
  lemma {:induction false} LatestHasMaxRevision(rows: seq<Note>, scope: string, key: string)
    ensures var m := Latest(rows, scope, key, None);
      MaxRevision(rows, scope, key) == if m.Some? then m.value.revision else 0
  {
    if rows != [] {
      LatestHasMaxRevision(rows[..|rows| - 1], scope, key);
    }
  }

  lemma AppendKeepsValid(rows: seq<Note>, note: Note)
    requires Valid(rows) && note.cursor >= 1 && note.cursor > MaxCursor(rows)
    requires note.revision == MaxRevision(rows, note.scope, note.key) + 1
    ensures Valid(rows + [note])
  {
    var more := rows + [note];
    MaxCursorBounds(rows);
    hide MaxRevision, MaxCursor;
    assert forall i :: 0 <= i < |rows| ==> more[..i] == rows[..i];
    assert more[..|rows|] == rows;
  }

  lemma ValidInserts(rows: seq<Note>, note: Note)
    requires Valid(rows + [note]) && 1 <= note.revision && note.cursor <= MAX_SAFE
    ensures InsertNote(rows, note, note.revision - 1) == Ok(rows + [note])
  {
    hide MaxRevision;
    var more := rows + [note];
    MaxCursorBounds(rows);
    assert more[..|rows|] == rows && more[|rows|] == note;
    assert forall i :: 0 <= i < |rows| ==> more[i].cursor < more[|rows|].cursor;
  }

  /** A row that continues the numbering is inserted exactly when the log stays valid with it. */
  lemma InsertedIffValid(rows: seq<Note>, note: Note)
    requires Valid(rows) && 1 <= note.revision && note.cursor <= MAX_SAFE
    ensures InsertNote(rows, note, note.revision - 1) == Ok(rows + [note]) <==> Valid(rows + [note])
  {
    hide Valid;
    if Valid(rows + [note]) { ValidInserts(rows, note); }
    if InsertNote(rows, note, note.revision - 1).Ok? { AppendKeepsValid(rows, note); }
  }

  /** Every operation keeps the log valid, and `upsert` is refused only for a stale revision or an exhausted counter. */
  lemma UpsertKeepsInv(m: Memory, scope: string, key: string, expected: int, lifecycle: Lifecycle, body: string)
    requires Inv(m)
    ensures var r := Upsert(m, scope, key, expected, lifecycle, body);
      && (r.Ok? ==> Inv(r.value))
      && (0 <= expected < MAX_SAFE && m.lastEvent < MAX_SAFE ==>
            (r.Ok? <==> expected == MaxRevision(m.rows, scope, key)) && (r.Err? ==> r.code == REVISION_CONFLICT))
  {
    LatestHasMaxRevision(m.rows, scope, key);
    LatestIsThere(m.rows, scope, key, None);
    MaxCursorBounds(m.rows);
    var r := Upsert(m, scope, key, expected, lifecycle, body);
    if r.Ok? {
      AppendKeepsValid(m.rows, Note(scope, key, expected + 1, m.lastEvent + 1, lifecycle, body));
    }
  }

  lemma {:induction false} LatestIsThere(rows: seq<Note>, scope: string, key: string, bound: Option<nat>)
    ensures var m := Latest(rows, scope, key, bound); m.Some? ==> m.value in rows && Selects(m.value, scope, key, bound)
  {
    hide Selects;
    if rows != [] {
      LatestIsThere(rows[..|rows| - 1], scope, key, bound);
      assert rows == rows[..|rows| - 1] + [rows[|rows| - 1]];
    }
  }

  // ---------------------------------------------------------------- the snapshot at a cursor

  /** The row that the NOT EXISTS query of `listMemoryNotes` selects. */
  ghost predicate IsLatest(rows: seq<Note>, bound: nat, m: Note) {
    && m in rows && m.cursor <= bound
    && forall n :: n in rows && n.scope == m.scope && n.key == m.key && n.cursor <= bound ==> n.revision <= m.revision
  }

  /** In a valid log a later matching row outranks every earlier one. */
  lemma LatestStep(rows: seq<Note>, scope: string, key: string, bound: Option<nat>)
    requires Valid(rows) && rows != [] && Selects(rows[|rows| - 1], scope, key, bound)
    ensures Latest(rows, scope, key, bound) == Some(rows[|rows| - 1])
  {
    var init := rows[..|rows| - 1];
    ValidPrefix(rows, |rows| - 1);
    LatestIsThere(init, scope, key, bound);
    MaxRevisionBounds(init, scope, key);
  }

  lemma LaterOutranks(init: seq<Note>, last: Note, bound: nat, m: Note)
    requires last.cursor <= bound && last.scope == m.scope && last.key == m.key
    requires forall i :: 0 <= i < |init| && init[i].scope == m.scope && init[i].key == m.key ==>
      init[i].revision < last.revision
    ensures IsLatest(init + [last], bound, m) <==> m == last
  {
    assert forall n :: n in init + [last] <==> n in init || n == last;
    assert last in init + [last];
  }

  lemma OthersDoNotMatter(init: seq<Note>, last: Note, bound: nat, m: Note)
    requires !(last.cursor <= bound && last.scope == m.scope && last.key == m.key)
    ensures IsLatest(init + [last], bound, m) <==> IsLatest(init, bound, m)
  {
    assert forall n :: n in init + [last] <==> n in init || n == last;
  }

  /** `getMemoryNote` at a cursor is the row that `listMemoryNotes` selects for the key. */
  lemma LastOutranks(init: seq<Note>, last: Note)
    requires Valid(init + [last])
    ensures forall i :: 0 <= i < |init| && init[i].scope == last.scope && init[i].key == last.key ==>
      init[i].revision < last.revision
  {
    var rows := init + [last];
    MaxRevisionBounds(init, last.scope, last.key);
    assert rows[..|rows| - 1] == init && rows[|rows| - 1] == last;
    hide MaxRevision;
  }

  lemma {:induction false} LatestMeaning(rows: seq<Note>, scope: string, key: string, bound: nat, m: Note)
    requires Valid(rows) && m.scope == scope && m.key == key
    ensures IsLatest(rows, bound, m) <==> Latest(rows, scope, key, Some(bound)) == Some(m)
  {
    hide IsLatest, Valid, MaxRevision;
    if rows == [] {
      assert !IsLatest(rows, bound, m) by { NotLatestOfNone(bound, m); }
    } else {
      var init, last := rows[..|rows| - 1], rows[|rows| - 1];
      assert rows == init + [last];
      ValidPrefix(rows, |rows| - 1);
      if Selects(last, scope, key, Some(bound)) {
        LatestStep(rows, scope, key, Some(bound));
        LastOutranks(init, last);
        LaterOutranks(init, last, bound, m);
      } else {
        LatestMeaning(init, scope, key, bound, m);
        OthersDoNotMatter(init, last, bound, m);
      }
    }
  }

  lemma NotLatestOfNone(bound: nat, m: Note)
    ensures !IsLatest([], bound, m)
  {
  }

  lemma ReplayOneMore(start: map<string, Note>, changes: seq<Note>, m: Note)
    ensures Replay(start, changes + [m]) == Replay(start, changes)[m.key := m]
  {
    assert (changes + [m])[..|changes|] == changes;
  }

  lemma LatestSkips(rows: seq<Note>, scope: string, key: string, bound: Option<nat>)
    requires rows != [] && !Selects(rows[|rows| - 1], scope, key, bound)
    ensures Latest(rows, scope, key, bound) == Latest(rows[..|rows| - 1], scope, key, bound)
  {
  }

  lemma ChangesOneMore(rows: seq<Note>, scope: string, after: nat, upTo: nat)
    requires rows != []
    ensures var earlier, m := Changes(rows[..|rows| - 1], scope, after, upTo), rows[|rows| - 1];
      Changes(rows, scope, after, upTo) == if m.scope == scope
        && after < m.cursor <= upTo then earlier + [m] else earlier
  {
  }

  /** Folding the change log up to `c`, last change wins, is exactly the snapshot at `c`. */
  lemma {:induction false} ReplayIsSnapshot(rows: seq<Note>, scope: string, key: string, c: nat)
    requires Valid(rows)
    ensures var replayed, latest := Replay(map[], Changes(rows, scope, 0, c)), Latest(rows, scope, key, Some(c));
      (key in replayed <==> latest.Some?) && (key in replayed ==> latest == Some(replayed[key]))
  {
    if rows != [] {
      var init, last := rows[..|rows| - 1], rows[|rows| - 1];
      ValidPrefix(rows, |rows| - 1);
      assert last.cursor >= 1;
      ChangesOneMore(rows, scope, 0, c);
      hide Valid, Latest, Replay, Changes;
      ReplayIsSnapshot(init, scope, key, c);
      if Selects(last, scope, key, Some(c)) { LatestStep(rows, scope, key, Some(c)); }
        else { LatestSkips(rows, scope, key, Some(c)); }
      ReplayOneMore(map[], Changes(init, scope, 0, c), last);
    } else {
      assert Replay(map[], Changes(rows, scope, 0, c)) == map[];
    }
  }

  lemma {:induction false} ReplayConcat(start: map<string, Note>, a: seq<Note>, b: seq<Note>)
    ensures Replay(start, a + b) == Replay(Replay(start, a), b)
  {
    if b == [] {
      assert a + b == a;
    } else {
      assert (a + b)[..|a + b| - 1] == a + b[..|b| - 1];
      ReplayConcat(start, a, b[..|b| - 1]);
    }
  }

  lemma {:induction false} ChangesSplit(rows: seq<Note>, scope: string, a: nat, b: nat, c: nat)
    requires CursorOrdered(rows) && a <= b <= c
    ensures Changes(rows, scope, a, c) == Changes(rows, scope, a, b) + Changes(rows, scope, b, c)
  {
    if rows != [] {
      var init, last := rows[..|rows| - 1], rows[|rows| - 1];
      ChangesSplit(init, scope, a, b, c);
      if last.cursor <= b { NothingAfter(init, scope, b, c, last.cursor); }
      hide CursorOrdered;
      var low, high := Changes(init, scope, a, b), Changes(init, scope, b, c);
      assert low + high + [last] == low + (high + [last]);
      assert low + [] == low && high + [] == high && low + high + [] == low + high;
    }
  }

  lemma {:induction false} NothingAfter(rows: seq<Note>, scope: string, b: nat, c: nat, top: nat)
    requires top <= b && forall i :: 0 <= i < |rows| ==> rows[i].cursor < top
    ensures Changes(rows, scope, b, c) == []
  {
    if rows != [] { NothingAfter(rows[..|rows| - 1], scope, b, c, top); }
  }

  /** A reader who holds the snapshot at `b` reaches the snapshot at `c` from the changes in between. */
  lemma CatchUp(rows: seq<Note>, scope: string, b: nat, c: nat)
    requires Valid(rows) && b <= c
    ensures Replay(Replay(map[], Changes(rows, scope, 0, b)), Changes(rows, scope, b, c)) ==
      Replay(map[], Changes(rows, scope, 0, c))
  {
    ChangesSplit(rows, scope, 0, b, c);
    ReplayConcat(map[], Changes(rows, scope, 0, b), Changes(rows, scope, b, c));
  }

  lemma {:induction false} ChangesMembers(rows: seq<Note>, scope: string, after: nat, upTo: nat, m: Note)
    ensures m in Changes(rows, scope, after, upTo) <==> m in rows && m.scope == scope && after < m.cursor <= upTo
  {
    if rows != [] {
      ChangesMembers(rows[..|rows| - 1], scope, after, upTo, m);
      assert rows == rows[..|rows| - 1] + [rows[|rows| - 1]];
    }
  }

  ghost predicate CursorOrdered(notes: seq<Note>) {
    forall i, j :: 0 <= i < j < |notes| ==> notes[i].cursor < notes[j].cursor
  }

  /** `listMemoryChanges` returns exactly the rows of its interval, in cursor order. */
  lemma {:induction false} ChangesExact(rows: seq<Note>, scope: string, after: nat, upTo: nat)
    requires CursorOrdered(rows)
    ensures forall m :: m in Changes(rows, scope, after, upTo) <==>
      m in rows && m.scope == scope && after < m.cursor <= upTo
    ensures CursorOrdered(Changes(rows, scope, after, upTo))
  {
    if rows != [] {
      var init, last := rows[..|rows| - 1], rows[|rows| - 1];
      ChangesExact(init, scope, after, upTo);
      var earlier := Changes(init, scope, after, upTo);
      forall i | 0 <= i < |earlier| ensures earlier[i].cursor < last.cursor {
        assert earlier[i] in init;
      }
    }
    hide Changes;
    forall m ensures m in Changes(rows, scope, after, upTo) <==>
      m in rows && m.scope == scope && after < m.cursor <= upTo {
      ChangesMembers(rows, scope, after, upTo, m);
    }
  }

  ghost predicate KeyOrdered(notes: seq<Note>) {
    forall i, j :: 0 <= i < j < |notes| ==> Less(notes[i].key, notes[j].key)
  }

  lemma {:induction false} SelectExact(keys: seq<string>, rows: seq<Note>, q: Query)
    requires Valid(rows) && Increasing(keys)
    ensures forall m :: m in SelectLatest(keys, rows, q) <==>
      m.scope == q.scope && m.key in keys && IsLatest(rows, q.before, m) && Accepts(q, m)
    ensures KeyOrdered(SelectLatest(keys, rows, q))
  {
    if keys != [] {
      var first, rest := keys[0], SelectLatest(keys[1..], rows, q);
      SelectExact(keys[1..], rows, q);
      var latest := Latest(rows, q.scope, first, Some(q.before));
      LatestIsThere(rows, q.scope, first, Some(q.before));
      forall m: Note | m.scope == q.scope && m.key == first
        ensures IsLatest(rows, q.before, m) <==> latest == Some(m)
      {
        LatestMeaning(rows, q.scope, first, q.before, m);
      }
      assert keys == [first] + keys[1..];
      hide IsLatest, Accepts, Latest;
      forall i | 0 <= i < |rest| ensures Less(first, rest[i].key) {
        assert rest[i] in rest;
        var j :| 0 <= j < |keys[1..]| && keys[1..][j] == rest[i].key;
        assert Less(keys[0], keys[j + 1]);
      }
    }
  }

  lemma {:induction false} KeysOfAll(rows: seq<Note>, scope: string)
    ensures forall m :: m in rows && m.scope == scope ==> m.key in KeysOf(rows, scope)
  {
    if rows != [] {
      KeysOfAll(rows[1..], scope);
      assert rows == [rows[0]] + rows[1..];
    }
  }

  /** `listMemoryNotes` returns exactly the latest revisions its filters accept, each once, in key order. */
  lemma ListNotesExact(rows: seq<Note>, q: Query)
    requires Valid(rows)
    ensures forall m :: m in ListNotes(rows, q) <==> m.scope == q.scope && IsLatest(rows, q.before, m) && Accepts(q, m)
    ensures KeyOrdered(ListNotes(rows, q))
  {
    SelectExact(SortDistinct(KeysOf(rows, q.scope)), rows, q);
    KeysOfAll(rows, q.scope);
  }

  /** A successful upsert adds one row, which is then the latest of its key; the latest rows of other keys stay. */
  lemma UpsertRecords(m: Memory, scope: string, key: string, expected: int, lifecycle: Lifecycle, body: string)
    requires Inv(m) && Upsert(m, scope, key, expected, lifecycle, body).Ok?
    ensures expected >= 0
    ensures var m' := Upsert(m, scope, key, expected, lifecycle, body).value;
      var note := Note(scope, key, expected + 1, m.lastEvent + 1, lifecycle, body);
      && m' == Memory(m.rows + [note], m.lastEvent + 1)
      && Latest(m'.rows, scope, key, None) == Some(note)
      && (forall s, k :: (s, k) != (scope, key) ==> Latest(m'.rows, s, k, None) == Latest(m.rows, s, k, None))
  {
    var note := Note(scope, key, expected + 1, m.lastEvent + 1, lifecycle, body);
    var rows := m.rows + [note];
    assert rows[..|rows| - 1] == m.rows && rows[|rows| - 1] == note;
  }

  /**
   * A note is listed exactly if it is the latest of its key at the bound and has what the query asks for; in key order.
   */
  lemma ListedExactly(rows: seq<Note>, q: Query, m: Note)
    requires Valid(rows)
    ensures m in ListNotes(rows, q) <==>
      && m.scope == q.scope && IsLatest(rows, q.before, m) && m.lifecycle in q.lifecycles
      && (q.keys == None || m.key in q.keys.value)
      && (q.after == None || q.after.value < m.key || exists k: nat :: SmallerAt(q.after.value, m.key, k))
    ensures forall i, j :: 0 <= i < j < |ListNotes(rows, q)| ==>
      Less(ListNotes(rows, q)[i].key, ListNotes(rows, q)[j].key)
  {
    hide Valid, IsLatest, ListNotes;
    ListNotesExact(rows, q);
    if q.after.Some? { LessMeans(q.after.value, m.key); }
  }

  // ---------------------------------------------------------------- runs

  datatype Step = OtherEvent | UpsertStep(scope: string, key: string, expected: int, lifecycle: Lifecycle, body: string)

  ghost predicate Steps(m: Memory, step: Step, m': Memory) {
    match step
    case OtherEvent => m' == Memory(m.rows, m.lastEvent + 1)
    case UpsertStep(scope, key, expected, lifecycle, body) => Upsert(m, scope, key, expected, lifecycle, body) == Ok(m')
  }

  ghost predicate Run(states: seq<Memory>, steps: seq<Step>) {
    && |states| == |steps| + 1
    && states[0] == Memory([], 0)
    && forall i :: 0 <= i < |steps| ==> Steps(states[i], steps[i], states[i + 1])
  }

  /** `b` has the rows of `a` and then rows with cursors that `a` has not reached. */
  ghost predicate Extends(a: Memory, b: Memory) {
    && |a.rows| <= |b.rows| && a.rows == b.rows[..|a.rows|]
    && a.lastEvent <= b.lastEvent
    && forall i :: |a.rows| <= i < |b.rows| ==> b.rows[i].cursor > a.lastEvent
  }

  lemma StepExtends(m: Memory, step: Step, m': Memory)
    requires Inv(m) && Steps(m, step, m')
    ensures Inv(m') && Extends(m, m')
  {
    if step.UpsertStep? {
      UpsertKeepsInv(m, step.scope, step.key, step.expected, step.lifecycle, step.body);
    }
  }

  lemma {:induction false} RunExtends(states: seq<Memory>, steps: seq<Step>, i: nat, j: nat)
    requires Run(states, steps) && i <= j < |states|
    ensures Inv(states[i]) && Inv(states[j]) && Extends(states[i], states[j])
    decreases j
  {
    hide Steps, Valid;
    if i < j {
      RunExtends(states, steps, i, j - 1);
      assert Steps(states[j - 1], steps[j - 1], states[j - 1 + 1]);
      StepExtends(states[j - 1], steps[j - 1], states[j]);
    } else if i > 0 {
      RunExtends(states, steps, i - 1, i - 1);
      assert Steps(states[i - 1], steps[i - 1], states[i - 1 + 1]);
      StepExtends(states[i - 1], steps[i - 1], states[i]);
    } else {
      EmptyIsValid();
    }
  }

  lemma EmptyIsValid()
    ensures Valid([])
  {
  }

  lemma {:induction false} LatestFrozen(rows: seq<Note>, n: nat, scope: string, key: string, c: nat)
    requires n <= |rows| && forall i :: n <= i < |rows| ==> rows[i].cursor > c
    ensures Latest(rows, scope, key, Some(c)) == Latest(rows[..n], scope, key, Some(c))
    ensures Changes(rows, scope, 0, c) == Changes(rows[..n], scope, 0, c)
    decreases |rows|
  {
    if n < |rows| {
      LatestFrozen(rows[..|rows| - 1], n, scope, key, c);
      assert rows[..|rows| - 1][..n] == rows[..n];
    } else {
      assert rows[..n] == rows;
    }
  }

  lemma {:induction false} ChangesFrozen(rows: seq<Note>, n: nat, scope: string, after: nat, c: nat)
    requires n <= |rows| && forall i :: n <= i < |rows| ==> rows[i].cursor > c
    ensures Changes(rows, scope, after, c) == Changes(rows[..n], scope, after, c)
    decreases |rows|
  {
    if n < |rows| {
      ChangesFrozen(rows[..|rows| - 1], n, scope, after, c);
      assert rows[..|rows| - 1][..n] == rows[..n];
    } else {
      assert rows[..n] == rows;
    }
  }

  /** Lists of notes with the same members, both in strict key order, are equal. */
  lemma {:induction false} KeyOrderedUnique(a: seq<Note>, b: seq<Note>)
    requires KeyOrdered(a) && KeyOrdered(b) && forall m :: m in a <==> m in b
    ensures a == b
  {
    FirstIsMember(b);
    if a != [] {
      assert a[0] in b && b[0] in a;
      FirstIsLeast(a, b[0]);
      FirstIsLeast(b, a[0]);
      LessTrichotomy(a[0].key, b[0].key);
      SameTail(a, b);
      SameTail(b, a);
      KeyOrderedUnique(a[1..], b[1..]);
      assert a == [a[0]] + a[1..] && b == [b[0]] + b[1..];
    }
  }

  lemma FirstIsMember(a: seq<Note>)
    ensures a != [] ==> a[0] in a
  {
  }

  lemma FirstIsLeast(a: seq<Note>, m: Note)
    requires KeyOrdered(a) && m in a
    ensures m == a[0] || Less(a[0].key, m.key)
  {
    var i :| 0 <= i < |a| && a[i] == m;
  }

  lemma SameTail(a: seq<Note>, b: seq<Note>)
    requires a != [] && b != [] && a[0] == b[0] && KeyOrdered(a) && forall m :: m in a ==> m in b
    ensures forall m :: m in a[1..] ==> m in b[1..]
  {
    forall m | m in a[1..] ensures m in b[1..] {
      var i :| 0 <= i < |a[1..]| && a[1..][i] == m;
      assert Less(a[0].key, a[i + 1].key);
      LessTrichotomy(a[0].key, m.key);
      assert m in b && b == [b[0]] + b[1..];
    }
  }

  /** The snapshot at a cursor that had been reached never changes afterwards. */
  lemma FrozenSnapshot(states: seq<Memory>, steps: seq<Step>, i: nat, j: nat, scope: string, key: string, after: nat,
      q: Query)
    requires Run(states, steps) && i <= j < |states| && q.before <= states[i].lastEvent
    ensures Latest(states[j].rows, scope, key, Some(q.before)) == Latest(states[i].rows, scope, key, Some(q.before))
    ensures Changes(states[j].rows, scope, after, q.before) == Changes(states[i].rows, scope, after, q.before)
    ensures ListNotes(states[j].rows, q) == ListNotes(states[i].rows, q)
  {
    RunExtends(states, steps, i, j);
    var a, b := states[i].rows, states[j].rows;
    hide Run;
    LatestFrozen(b, |a|, scope, key, q.before);
    ChangesFrozen(b, |a|, scope, after, q.before);
    ListNotesExact(a, q);
    ListNotesExact(b, q);
    forall m ensures IsLatest(a, q.before, m) <==> IsLatest(b, q.before, m) {
      LatestMeaning(a, m.scope, m.key, q.before, m);
      LatestMeaning(b, m.scope, m.key, q.before, m);
      LatestFrozen(b, |a|, m.scope, m.key, q.before);
    }
    hide IsLatest, Latest, ListNotes, KeyOrdered, Changes;
    KeyOrderedUnique(ListNotes(a, q), ListNotes(b, q));
  }

  lemma {:induction false} MaxRevisionGrows(rows: seq<Note>, n: nat, scope: string, key: string)
    requires n <= |rows|
    ensures MaxRevision(rows[..n], scope, key) <= MaxRevision(rows, scope, key)
    decreases |rows|
  {
    if n < |rows| {
      MaxRevisionGrows(rows[..|rows| - 1], n, scope, key);
      assert rows[..|rows| - 1][..n] == rows[..n];
    } else {
      assert rows[..n] == rows;
    }
  }

  /** Compare and swap: no two upserts of a key succeed with the same expected revision, however far apart. */
  lemma EachRevisionIsWrittenOnce(states: seq<Memory>, steps: seq<Step>, i: nat, j: nat)
    requires Run(states, steps) && i < j < |steps|
    requires steps[i].UpsertStep? && steps[j].UpsertStep? && steps[i].scope == steps[j].scope
      && steps[i].key == steps[j].key
    ensures steps[i].expected < steps[j].expected
  {
    RunExtends(states, steps, i, i);
    RunExtends(states, steps, i + 1, j);
    assert Steps(states[i], steps[i], states[i + 1]);
    assert Steps(states[j], steps[j], states[j + 1]);
    hide Run;
    var scope, key := steps[i].scope, steps[i].key;
    AcceptedAt(states[i], steps[i], states[i + 1]);
    AcceptedAt(states[j], steps[j], states[j + 1]);
    MaxRevisionGrows(states[j].rows, |states[i + 1].rows|, scope, key);
  }

  lemma AcceptedAt(m: Memory, step: Step, m': Memory)
    requires Inv(m) && step.UpsertStep? && Steps(m, step, m')
    ensures step.expected == MaxRevision(m.rows, step.scope, step.key)
    ensures MaxRevision(m'.rows, step.scope, step.key) == step.expected + 1
  {
    LatestHasMaxRevision(m.rows, step.scope, step.key);
    LatestIsThere(m.rows, step.scope, step.key, None);
    assert m'.rows[..|m'.rows| - 1] == m.rows;
  }
}
