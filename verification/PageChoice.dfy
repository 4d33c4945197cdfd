/**
 * Which rows a page of memory carries whole, which it only names, and where it stops
 * (shared/control-plane/src/memory-service.ts:127-194), said about the finished page.
 */
module PageChoice {
  import opened Bridge
  import opened MemoryLog
  import opened MemoryPaging
  import opened ChangePaging

  // ---------------------------------------------------------------- a page of notes

  /** The bytes of the page with this row as one more note. */
  function SizeWithNote(w: Weigher, part: Part, row: Note): nat {
    PageBytes(w, Part(part.notes + [row], part.omitted), false, Some(row.key))
  }

  /** The bytes of the page that only names this row, and says how much room it takes. */
  function SizeWithName(w: Weigher, part: Part, row: Note): nat {
    var name := Omission(row.key, row.revision, SizeWithNote(w, part, row));
    PageBytes(w, Part(part.notes, part.omitted + [name]), false, Some(row.key))
  }

  /**
   * The rows named without their content come first; each did not fit as a note after those before it, but its name
   * did.
   */
  ghost predicate NamedForSize(w: Weigher, budget: nat, rows: seq<Note>, part: Part) {
    && |part.omitted| <= |rows|
    && forall i :: 0 <= i < |part.omitted| ==>
      var before := Part([], part.omitted[..i]);
      && SizeWithNote(w, before, rows[i]) > budget >= SizeWithName(w, before, rows[i])
      && part.omitted[i] == Omission(rows[i].key, rows[i].revision, SizeWithNote(w, before, rows[i]))
  }

  /** Then come notes, each of which fitted after everything before it. */
  ghost predicate NotesFit(w: Weigher, budget: nat, rows: seq<Note>, part: Part) {
    var k := |part.omitted|;
    && k + |part.notes| <= |rows|
    && forall j :: 0 <= j < |part.notes| ==>
      part.notes[j] == rows[k + j] && SizeWithNote(w, Part(part.notes[..j], part.omitted), rows[k + j]) <= budget
  }

  /** The next row does not fit, neither as a note nor, while there is no note, by name. */
  predicate NothingMoreFits(w: Weigher, budget: nat, part: Part, row: Note) {
    SizeWithNote(w, part, row) > budget && (part.notes == [] ==> SizeWithName(w, part, row) > budget)
  }

  ghost predicate Chosen(w: Weigher, budget: nat, rows: seq<Note>, part: Part) {
    NamedForSize(w, budget, rows, part) && NotesFit(w, budget, rows, part)
  }

  lemma NoteChosen(w: Weigher, budget: nat, rows: seq<Note>, part: Part)
    requires Chosen(w, budget, rows, part) && Processed(part) < |rows|
    requires SizeWithNote(w, part, rows[Processed(part)]) <= budget
    ensures Chosen(w, budget, rows, WithNote(part, rows[Processed(part)]))
  {
    hide PageBytes;
    var part' := WithNote(part, rows[Processed(part)]);
    forall j | 0 <= j < |part'.notes|
      ensures part'.notes[j] == rows[|part'.omitted| + j]
      ensures SizeWithNote(w, Part(part'.notes[..j], part'.omitted), rows[|part'.omitted| + j]) <= budget
    {
      assert part'.notes[..j] == part.notes[..j];
      if j == |part.notes| { assert part.notes[..j] == part.notes; }
    }
  }

  lemma NameChosen(w: Weigher, budget: nat, rows: seq<Note>, part: Part)
    requires Chosen(w, budget, rows, part) && Processed(part) < |rows| && part.notes == []
    requires SizeWithNote(w, part, rows[Processed(part)]) > budget >= SizeWithName(w, part, rows[Processed(part)])
    ensures Chosen(w, budget, rows, WithOmission(w, part, rows[Processed(part)]))
  {
    hide PageBytes;
    var part' := WithOmission(w, part, rows[Processed(part)]);
    forall i | 0 <= i < |part'.omitted| ensures part'.omitted[..i] == part.omitted[..i] {}
    assert part.omitted[..|part.omitted|] == part.omitted;
    assert Part([], part.omitted) == part;
  }

  /** One round of the loop. */
  lemma FillStep(w: Weigher, budget: nat, rows: seq<Note>, part: Part)
    requires rows != []
    ensures Fill(w, budget, rows, part) ==
      if SizeWithNote(w, part, rows[0]) <= budget then Fill(w, budget, rows[1..], WithNote(part, rows[0]))
      else if part.notes == [] && SizeWithName(w, part, rows[0]) <= budget
      then Fill(w, budget, rows[1..], WithOmission(w, part, rows[0]))
      else if Processed(part) == 0 then Err(INVALID_ARGUMENT)
      else Ok(part)
  {
    hide PageBytes;
  }

  lemma OneMore(w: Weigher, part: Part, row: Note)
    ensures Processed(WithNote(part, row)) == Processed(WithOmission(w, part, row)) == Processed(part) + 1
  {
  }

  lemma {:induction false} FillChooses(w: Weigher, budget: nat, rows: seq<Note>, part: Part)
    requires Processed(part) <= |rows| && Chosen(w, budget, rows, part)
    ensures var r := Fill(w, budget, rows[Processed(part)..], part);
      && (r.Ok? ==>
        && Processed(r.value) <= |rows| && Chosen(w, budget, rows, r.value)
        && (Processed(r.value) < |rows| ==> NothingMoreFits(w, budget, r.value, rows[Processed(r.value)])))
      && (r.Err? <==> Processed(part) == 0 && rows != [] && NothingMoreFits(w, budget, part, rows[0]))
      && (r.Err? ==> r == Err(INVALID_ARGUMENT))
    decreases |rows| - Processed(part)
  {
    hide PageBytes, Chosen, SizeWithNote, SizeWithName, WithNote, WithOmission;
    var n := Processed(part);
    if n < |rows| {
      var row := rows[n];
      assert rows[n..][0] == row && rows[n..][1..] == rows[n + 1..];
      FillStep(w, budget, rows[n..], part);
      OneMore(w, part, row);
      hide Fill;
      if SizeWithNote(w, part, row) <= budget {
        NoteChosen(w, budget, rows, part);
        FillChooses(w, budget, rows, WithNote(part, row));
      } else if part.notes == [] && SizeWithName(w, part, row) <= budget {
        NameChosen(w, budget, rows, part);
        FillChooses(w, budget, rows, WithOmission(w, part, row));
      }
    }
  }

  /**
   * A page names only rows that do not fit as notes, and says what they take; it carries every note that fits;
     and it stops
   * short of its limit only when the next row fits in no way.
   */
  lemma PageIsChosen(w: Weigher, budget: nat, rows: seq<Note>, limit: nat, head: nat, after: Option<string>)
    requires ContextPage(w, budget, rows, limit, head, after).Ok?
    ensures var part := ContextPage(w, budget, rows, limit, head, after).value.part;
      && Chosen(w, budget, rows, part) && Processed(part) <= limit
      && (Processed(part) < limit && Processed(part) < |rows| ==>
            NothingMoreFits(w, budget, part, rows[Processed(part)]))
  {
    hide PageBytes, Fill, Chosen;
    var slice := First(rows, limit);
    NothingChosen(w, budget, slice);
    FillChooses(w, budget, slice, Part([], []));
    assert slice[0..] == slice;
    ChosenOfPrefix(w, budget, slice, rows, Fill(w, budget, slice, Part([], [])).value);
  }

  lemma NothingChosen(w: Weigher, budget: nat, rows: seq<Note>)
    ensures Chosen(w, budget, rows, Part([], []))
  {
  }

  lemma ChosenOfPrefix(w: Weigher, budget: nat, some: seq<Note>, rows: seq<Note>, part: Part)
    requires some <= rows && Chosen(w, budget, some, part)
    ensures Chosen(w, budget, rows, part)
  {
    hide PageBytes;
    assert forall i :: 0 <= i < |some| ==> some[i] == rows[i];
  }

  /** A page is refused for its budget exactly if even the empty page, or the first row by name alone, does not fit. */
  lemma PageRefusedExactly(w: Weigher, budget: nat, rows: seq<Note>, limit: nat, head: nat, after: Option<string>)
    requires limit > 0
    ensures ContextPage(w, budget, rows, limit, head, after) == Err(INVALID_ARGUMENT) <==>
      || PageBytes(w, Part([], []), false, None) > budget
      || (rows != [] && NothingMoreFits(w, budget, Part([], []), rows[0]))
  {
    hide PageBytes, Fill, Chosen, NothingMoreFits;
    var slice := First(rows, limit);
    NothingChosen(w, budget, slice);
    FillChooses(w, budget, slice, Part([], []));
    assert slice[0..] == slice;
    assert rows != [] ==> slice != [] && slice[0] == rows[0];
  }

  /** There is one such page only. */
  lemma ChoiceIsUnique(w: Weigher, budget: nat, rows: seq<Note>, a: Part, b: Part)
    requires Chosen(w, budget, rows, a) && Chosen(w, budget, rows, b)
    requires Processed(a) < |rows| ==> NothingMoreFits(w, budget, a, rows[Processed(a)])
    requires Processed(b) < |rows| ==> NothingMoreFits(w, budget, b, rows[Processed(b)])
    ensures a == b
  {
    hide PageBytes;
    SameNames(w, budget, rows, a, b);
    SameNames(w, budget, rows, b, a);
    NamesStop(w, budget, rows, a, b);
    NamesStop(w, budget, rows, b, a);
    assert a.omitted == b.omitted;
    SameNotes(w, budget, rows, a, b);
    SameNotes(w, budget, rows, b, a);
    NotesStop(w, budget, rows, a, b);
    NotesStop(w, budget, rows, b, a);
    assert a.notes == b.notes;
  }

  lemma SameNames(w: Weigher, budget: nat, rows: seq<Note>, a: Part, b: Part)
    requires NamedForSize(w, budget, rows, a) && NamedForSize(w, budget, rows, b)
    ensures forall n :: 0 <= n <= |a.omitted| && n <= |b.omitted| ==> a.omitted[..n] == b.omitted[..n]
  {
    hide PageBytes;
    var n := 0;
    while n < |a.omitted| && n < |b.omitted|
      invariant 0 <= n <= |a.omitted| && n <= |b.omitted|
      invariant forall m :: 0 <= m <= n ==> a.omitted[..m] == b.omitted[..m]
    {
      assert a.omitted[n] == b.omitted[n];
      assert a.omitted[..n + 1] == a.omitted[..n] + [a.omitted[n]];
      assert b.omitted[..n + 1] == b.omitted[..n] + [b.omitted[n]];
      n := n + 1;
    }
  }

  /** The names of one cannot go on where the other turned to notes or stopped. */
  lemma NamesStop(w: Weigher, budget: nat, rows: seq<Note>, a: Part, b: Part)
    requires Chosen(w, budget, rows, a) && Chosen(w, budget, rows, b)
    requires Processed(a) < |rows| ==> NothingMoreFits(w, budget, a, rows[Processed(a)])
    requires forall n :: 0 <= n <= |a.omitted| && n <= |b.omitted| ==> a.omitted[..n] == b.omitted[..n]
    ensures |b.omitted| <= |a.omitted|
  {
    hide PageBytes;
    var k := |a.omitted|;
    var same := if k <= |b.omitted| then b.omitted[..k] else [];
    assert a.omitted[..k] == a.omitted;
    assert k <= |b.omitted| ==> same == a.omitted;
    assert a.notes != [] ==> a.notes[..0] == [];
  }

  lemma SameNotes(w: Weigher, budget: nat, rows: seq<Note>, a: Part, b: Part)
    requires NotesFit(w, budget, rows, a) && NotesFit(w, budget, rows, b) && a.omitted == b.omitted
    ensures forall n :: 0 <= n <= |a.notes| && n <= |b.notes| ==> a.notes[..n] == b.notes[..n]
  {
    hide PageBytes;
  }

  lemma NotesStop(w: Weigher, budget: nat, rows: seq<Note>, a: Part, b: Part)
    requires NotesFit(w, budget, rows, a) && NotesFit(w, budget, rows, b) && a.omitted == b.omitted
    requires Processed(a) < |rows| ==> NothingMoreFits(w, budget, a, rows[Processed(a)])
    requires forall n :: 0 <= n <= |a.notes| && n <= |b.notes| ==> a.notes[..n] == b.notes[..n]
    ensures |b.notes| <= |a.notes|
  {
    hide PageBytes;
    var j := |a.notes|;
    var same := if j <= |b.notes| then b.notes[..j] else [];
    assert a.notes[..j] == a.notes;
    assert j <= |b.notes| ==> same == a.notes;
  }

  // ---------------------------------------------------------------- a page of changes

  /** The bytes of the page that ends with this row, before it is known whether more follows. */
  function SizeUpTo(w: ChangeWeigher, rest: seq<Note>, n: nat): nat
    requires 0 < n <= |rest|
  {
    ChangeBytes(w, rest[..n], rest[n - 1].cursor, false)
  }

  lemma {:induction false} FillTakesAll(w: ChangeWeigher, budget: nat, rows: seq<Note>, n: nat, t: Taken)
    requires n <= |rows| && t.changes == rows[..n]
    ensures var r := FillChanges(w, budget, rows[n..], t);
      && (r.Ok? ==>
        && n <= |r.value.changes| <= |rows| && r.value.changes == rows[..|r.value.changes|]
        && (forall m :: n < m <= |r.value.changes| ==> SizeUpTo(w, rows, m) <= budget)
        && (|r.value.changes| < |rows| ==> SizeUpTo(w, rows, |r.value.changes| + 1) > budget))
      && (r.Err? <==> n == 0 && rows != [] && SizeUpTo(w, rows, 1) > budget)
    decreases |rows| - n
  {
    hide ChangeBytes;
    if n < |rows| {
      assert rows[n..][0] == rows[n] && rows[n..][1..] == rows[n + 1..];
      assert rows[..n] + [rows[n]] == rows[..n + 1];
      if SizeUpTo(w, rows, n + 1) <= budget { FillTakesAll(w, budget, rows, n + 1, Take(t, rows[n])); }
    }
  }

  /** A page of changes takes every change that fits, one after the other, up to its limit. */
  lemma ChangePageIsLongest(w: ChangeWeigher, budget: nat, rest: seq<Note>, limit: nat, head: nat, after: nat)
    requires limit > 0
    ensures var r := PageOfChanges(w, budget, First(rest, limit + 1), limit, head, after);
      && (r.Err? <==> ChangeBytes(w, [], after, false) > budget || (rest != [] && SizeUpTo(w, rest, 1) > budget))
      && (r.Ok? ==>
            var n := |r.value.changes|;
            && n <= |rest| && (forall m :: 0 < m <= n ==> SizeUpTo(w, rest, m) <= budget)
            && (n < limit && n < |rest| ==> SizeUpTo(w, rest, n + 1) > budget))
  {
    hide ChangeBytes, FillChanges;
    var rows := First(rest, limit + 1);
    var slice := First(rows, limit);
    FillTakesAll(w, budget, slice, 0, Taken([], after));
    assert slice[0..] == slice;
    ChangePageIsExact(w, budget, rest, limit, head, after);
    forall m | 0 < m <= |slice| ensures SizeUpTo(w, slice, m) == SizeUpTo(w, rest, m) {
      assert slice[..m] == rest[..m];
    }
  }

  // ---------------------------------------------------------------- requests

  /** What is not asked for: twenty notes, sixteen kilobytes, active notes, the newest state. */
  lemma ContextDefaults(m: Memory, w: Weigher, r: Request)
    requires m.lastEvent <= MAX_SAFE
    ensures GetContext(m, w, r) == GetContext(m, w, r.(
      limit := if r.limit.None? then Some(20) else r.limit,
      maxBytes := if r.maxBytes.None? then Some(16384) else r.maxBytes,
      lifecycles := if r.lifecycles.None? then Some([Active]) else r.lifecycles,
      atCursor := if r.atCursor.None? then Some(m.lastEvent) else r.atCursor))
  {
    hide ListNotes, ContextPage, ValidKey;
  }

  /** Keys of one to 128 characters are accepted, and no others. */
  lemma KeyLengths(n: nat)
    ensures ValidKey(seq(n, _ => 'a')) <==> 1 <= n <= 128
  {
    var k := seq(n, _ => 'a');
    assert forall c :: c in k ==> c == 'a';
    if n > 0 { assert k[0] == 'a'; }
  }

  /** Every number is in its range, every key well formed, and a list that is given is not empty. */
  predicate ContextAsked(m: Memory, r: Request) {
    && r.limit.Some? && 1 <= r.limit.value <= 50 && r.maxBytes.Some? && 2048 <= r.maxBytes.value <= 65536
    && r.atCursor.Some? && 0 <= r.atCursor.value <= m.lastEvent && (r.afterKey.Some? ==> ValidKey(r.afterKey.value))
    && (r.keys.Some? ==> 1 <= |r.keys.value| <= 100 && forall k :: k in r.keys.value ==> ValidKey(k))
    && r.lifecycles.Some? && r.lifecycles != Some([])
  }

  /** With everything spelled out, such a request is answered from the notes at its cursor, and any other is refused. */
  lemma ContextExactly(m: Memory, w: Weigher, r: Request)
    requires m.lastEvent <= MAX_SAFE && r.limit.Some? && r.maxBytes.Some? && r.atCursor.Some? && r.lifecycles.Some?
    ensures GetContext(m, w, r) ==
      if !ContextAsked(m, r) then Err(INVALID_ARGUMENT)
      else
        var q := Query(r.scope, r.atCursor.value, r.keys, r.lifecycles.value, r.afterKey);
        ContextPage(w, r.maxBytes.value, First(ListNotes(m.rows, q), r.limit.value + 1), r.limit.value,
          r.atCursor.value,
          r.afterKey)
  {
    hide ListNotes, ContextPage, ValidKey;
  }

  lemma ChangeDefaults(m: Memory, w: ChangeWeigher, r: ChangeRequest)
    requires m.lastEvent <= MAX_SAFE
    ensures GetChanges(m, w, r) == GetChanges(m, w, r.(
      limit := if r.limit.None? then Some(25) else r.limit,
      maxBytes := if r.maxBytes.None? then Some(16384) else r.maxBytes,
      changeCursor := if r.changeCursor.None? then Some(0) else r.changeCursor,
      untilCursor := if r.untilCursor.None? then Some(m.lastEvent) else r.untilCursor))
  {
    hide Changes, PageOfChanges;
  }

  predicate ChangesAsked(m: Memory, r: ChangeRequest) {
    && r.limit.Some? && 1 <= r.limit.value <= 100 && r.maxBytes.Some? && 2048 <= r.maxBytes.value <= 65536
    && r.changeCursor.Some? && r.untilCursor.Some? && 0 <= r.changeCursor.value <= r.untilCursor.value <= m.lastEvent
  }

  lemma ChangesExactly(m: Memory, w: ChangeWeigher, r: ChangeRequest)
    requires m.lastEvent <= MAX_SAFE && r.limit.Some? && r.maxBytes.Some? && r.changeCursor.Some? && r.untilCursor.Some?
    ensures GetChanges(m, w, r) ==
      if !ChangesAsked(m, r) then Err(INVALID_ARGUMENT)
      else
        PageOfChanges(w, r.maxBytes.value,
          First(Changes(m.rows, r.scope, r.changeCursor.value, r.untilCursor.value), r.limit.value + 1),
          r.limit.value, r.untilCursor.value, r.changeCursor.value)
  {
    hide Changes, PageOfChanges;
  }
}
