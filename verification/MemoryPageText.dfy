/**
 * The text of a context page, as `JSON.stringify` lays it out with two spaces
 * (shared/control-plane/src/memory-service.ts:36-37 and 137-170), and a page on which the closing check fails.
 *
 * The notes printed here have no references and no related tasks; `body` is their summary. All texts are ASCII
 * and need no escapes, so characters are bytes.
 */
module MemoryPageText {
  import opened Bridge
  import opened Text
  import opened MemoryLog
  import opened MemoryPaging

  function Digit(d: nat): char
    requires d < 10
  {
    "0123456789"[d]
  }

  function Decimal(n: nat): string {
    if n < 10 then [Digit(n)] else Decimal(n / 10) + [Digit(n % 10)]
  }

  function Quote(s: string): string {
    "\"" + s + "\""
  }

  function ScopeText(scope: string, indent: string): string {
    "{\n"
    + indent + "  \"namespace\": \"development\",\n"
    + indent + "  \"context_id\": " + Quote(scope) + ",\n"
    + indent + "  \"branch\": null,\n"
    + indent + "  \"application_version\": null,\n"
    + indent + "  \"epoch\": null\n"
    + indent + "}"
  }

  function LifecycleText(l: Lifecycle): string {
    match l
    case Active => "active"
    case Superseded => "superseded"
    case Archived => "archived"
  }

  const INDENT := "      "

  function NoteHead(n: Note): string {
    INDENT + "\"schema_version\": 1,\n"
    + INDENT + "\"scope\": " + ScopeText(n.scope, INDENT) + ",\n"
    + INDENT + "\"key\": " + Quote(n.key) + ",\n"
    + INDENT + "\"revision\": " + Decimal(n.revision) + ",\n"
    + INDENT + "\"kind\": \"context\",\n"
    + INDENT + "\"title\": \"t\",\n"
    + INDENT + "\"summary\": " + Quote(n.body) + ",\n"
    + INDENT + "\"lifecycle\": " + Quote(LifecycleText(n.lifecycle)) + ",\n"
  }

  function NoteTail(n: Note): string {
    INDENT + "\"references\": [],\n"
    + INDENT + "\"related_task_ids\": [],\n"
    + INDENT + "\"abandonment\": null,\n"
    + INDENT + "\"change_cursor\": " + Decimal(n.cursor) + ",\n"
    + INDENT + "\"at\": 0,\n"
    + INDENT + PROVENANCE + ",\n"
    + INDENT + "\"reference_states\": []\n"
  }

  const PROVENANCE: string :=
    "\"provenance\": {\n        \"agent\": \"codex\",\n        \"task_id\": \"t\",\n"
    + "        \"run_id\": \"r\",\n        \"attempt\": 0\n      }"

  function NoteText(n: Note): string {
    "    {\n" + NoteHead(n) + NoteTail(n) + "    }"
  }

  function OmissionText(o: Omission): string {
    "    {\n"
    + INDENT + "\"key\": " + Quote(o.key) + ",\n"
    + INDENT + "\"revision\": " + Decimal(o.revision) + ",\n"
    + INDENT + "\"reason\": \"increase-max_bytes-to-load-whole-note\",\n"
    + INDENT + "\"minimum_bytes\": " + Decimal(o.minimum) + "\n"
    + "    }"
  }

  function NotesText(notes: seq<Note>): string {
    if notes == [] then "" else if |notes| == 1 then NoteText(notes[0])
      else NoteText(notes[0]) + ",\n" + NotesText(notes[1..])
  }

  function OmissionsText(omitted: seq<Omission>): string {
    if omitted == [] then ""
    else if |omitted| == 1 then OmissionText(omitted[0])
    else OmissionText(omitted[0]) + ",\n" + OmissionsText(omitted[1..])
  }

  function ListText(elements: string): string {
    if elements == "" then "[]" else "[\n" + elements + "\n  ]"
  }

  /** The page up to the value of `has_more`. */
  function OpeningText(scope: string, head: nat, part: Part): string {
    "{\n"
    + "  \"schema_version\": 1,\n"
    + "  \"scope\": " + ScopeText(scope, "  ") + ",\n"
    + "  \"change_cursor\": " + Decimal(head) + ",\n"
    + "  \"notes\": " + ListText(NotesText(part.notes)) + ",\n"
    + "  \"pending_tasks\": [],\n"
    + "  \"omitted\": " + ListText(OmissionsText(part.omitted)) + ",\n"
    + "  \"has_more\": "
  }

  const BETWEEN := ",\n  \"next_key\": "
  const CLOSING := "\n}"

  function PageText(scope: string, head: nat, part: Part, hasMore: bool, nextKey: Option<string>): string {
    OpeningText(scope, head, part) + (if hasMore then "true" else "false")
    + BETWEEN + (if nextKey.None? then "null" else Quote(nextKey.value)) + CLOSING
  }

  /** The bytes of a printed page without its two last values. */
  function Printed(scope: string, head: nat): Weigher {
    (part: Part) => |OpeningText(scope, head, part)| + |BETWEEN| + |CLOSING|
  }

  /** Weighing a page by its other bytes and adding `has_more` and `next_key` measures its whole text. */
  lemma PageBytesArePrinted(scope: string, head: nat, part: Part, hasMore: bool, nextKey: Option<string>)
    ensures PageBytes(Printed(scope, head), part, hasMore, nextKey) == |PageText(scope, head, part, hasMore, nextKey)|
  {
  }

  // ---------------------------------------------------------------- a page that fails the closing check

  /** A summary as long as the schema allows. */
  const SUMMARY: string := seq(2000, _ => 'a')
  const NOTE: Note := Note("c", "k", 1, 1, Active, SUMMARY)
  const ONE_NOTE: Part := Part([NOTE], [])

  lemma ScopeLength(scope: string, indent: string)
    ensures |ScopeText(scope, indent)| <= 200 + |scope| + 6 * |indent|
  {
  }

  lemma HeadLength(n: Note)
    ensures |n.body| + 48 <= |NoteHead(n)| <= 600 + |n.scope| + |n.key| + |n.body| + |Decimal(n.revision)|
  {
    ScopeLength(n.scope, INDENT);
    assert |LifecycleText(n.lifecycle)| <= 10;
    hide ScopeText, Decimal, LifecycleText;
  }

  lemma TailLength(n: Note)
    ensures |NoteTail(n)| <= 600 + |Decimal(n.cursor)|
  {
    assert |PROVENANCE| <= 200;
    hide Decimal;
  }

  lemma NoteLength(n: Note)
    ensures |n.body| + 48 <= |NoteText(n)|
    ensures |NoteText(n)| <= 1300 + |n.scope| + |n.key| + |n.body| + |Decimal(n.revision)| + |Decimal(n.cursor)|
  {
    HeadLength(n);
    TailLength(n);
    hide NoteHead, NoteTail, Decimal;
  }

  lemma PageLengths()
    ensures 2048 <= |PageText("c", 1, ONE_NOTE, false, Some("k"))| <= 6000
    ensures |PageText("c", 1, Part([], []), false, None)| <= |PageText("c", 1, ONE_NOTE, false, Some("k"))|
  {
    NoteLength(NOTE);
    ScopeLength("c", "  ");
    hide ScopeText, NoteText;
    assert |Decimal(1)| == 1;
    assert NotesText(ONE_NOTE.notes) == NoteText(NOTE);
  }

  lemma ListsTheNote()
    ensures ListNotes([NOTE], Query("c", 1, None, [Active], None)) == [NOTE]
  {
    var q := Query("c", 1, None, [Active], None);
    assert [NOTE][1..] == [] && [NOTE][..0] == [];
    assert KeysOf([NOTE], "c") == ["k"];
    assert SortDistinct(["k"][1..]) == [];
    assert SortDistinct(["k"]) == ["k"];
    assert Latest([NOTE], "c", "k", Some(1)) == Some(NOTE);
    assert SelectLatest(["k"][1..], [NOTE], q) == [];
  }

  lemma NoteIsWritten()
    ensures Run([Memory([], 0), Memory([NOTE], 1)], [UpsertStep("c", "k", 0, Active, SUMMARY)])
  {
    assert [] + [NOTE] == [NOTE];
    assert InsertNote([], NOTE, 0) == Ok([NOTE]);
    assert Upsert(Memory([], 0), "c", "k", 0, Active, SUMMARY) == Ok(Memory([NOTE], 1));
    assert Steps(Memory([], 0), UpsertStep("c", "k", 0, Active, SUMMARY), Memory([NOTE], 1));
  }

  lemma FillsThePage(w: Weigher, budget: nat)
    requires PageBytes(w, ONE_NOTE, false, Some("k")) == budget
    ensures Fill(w, budget, First([NOTE], 20), Part([], [])) == Ok(ONE_NOTE)
  {
    assert First([NOTE], 20) == [NOTE] && [NOTE][1..] == [];
    assert WithNote(Part([], []), NOTE) == ONE_NOTE;
  }

  lemma ContextFails(w: Weigher, budget: nat)
    requires PageBytes(w, ONE_NOTE, false, Some("k")) == budget && PageBytes(w, Part([], []), false, None) <= budget
    requires 2048 <= budget <= 64 * 1024
    ensures GetContext(Memory([NOTE], 1), w, Request("c", None, None, None, None, None, Some(budget))) == Err(INTERNAL)
  {
    hide ListNotes, PageBytes, ContextPage;
    ListsTheNote();
    FillsThePage(w, budget);
    InternalExactly(w, budget, [NOTE], 20, 1, None);
    assert First([NOTE], 21) == [NOTE];
  }

  lemma WeighedLengths(budget: nat)
    requires budget == |PageText("c", 1, ONE_NOTE, false, Some("k"))|
    ensures PageBytes(Printed("c", 1), ONE_NOTE, false, Some("k")) == budget
    ensures PageBytes(Printed("c", 1), Part([], []), false, None) <= budget && 2048 <= budget <= 6000
  {
    hide PageText, Printed, PageBytes;
    PageLengths();
    PageBytesArePrinted("c", 1, ONE_NOTE, false, Some("k"));
    PageBytesArePrinted("c", 1, Part([], []), false, None);
  }

  /**
   * The closing check can fail: one note with a one-character key, read with exactly the budget of its page. The page
   * fits while it says `"k"`, and is one byte too long when it says `null`.
   */
  lemma InternalExample()
    ensures Run([Memory([], 0), Memory([NOTE], 1)], [UpsertStep("c", "k", 0, Active, SUMMARY)])
    ensures var budget := |PageText("c", 1, ONE_NOTE, false, Some("k"))|;
      GetContext(Memory([NOTE], 1), Printed("c", 1), Request("c", None, None, None, None, None, Some(budget))) ==
        Err(INTERNAL)
  {
    hide PageText, Printed, PageBytes, GetContext, Run;
    var budget := |PageText("c", 1, ONE_NOTE, false, Some("k"))|;
    WeighedLengths(budget);
    ContextFails(Printed("c", 1), budget);
    NoteIsWritten();
  }
}
