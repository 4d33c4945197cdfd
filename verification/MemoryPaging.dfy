/**
 * Reading the shared memory in byte-budgeted pages: `getContext` and `getChanges`
 * (shared/control-plane/src/memory-service.ts:127-194).
 *
 * How many bytes a page takes is a parameter of each call, because the text of a row can change between
 * calls: it covers everything in the page except `has_more` and `next_key`, whose text is spelled out.
 */
module MemoryPaging {
  import opened Bridge
  import opened Text
  import opened MemoryLog

  datatype Omission = Omission(key: string, revision: nat, minimum: nat)

  /** A page in progress: whole notes, and rows named without their content. */
  datatype Part = Part(notes: seq<Note>, omitted: seq<Omission>)

  datatype Page = Page(head: nat, part: Part, hasMore: bool, nextKey: Option<string>)

  type Weigher = Part -> nat

  /** `true` or `false`. */
  function FlagBytes(b: bool): nat {
    if b then 4 else 5
  }

  /** `null`, or the key in quotes; keys need no escapes. */
  function KeyBytes(k: Option<string>): nat {
    if k.None? then 4 else |k.value| + 2
  }

  function PageBytes(w: Weigher, part: Part, hasMore: bool, nextKey: Option<string>): nat {
    w(part) + FlagBytes(hasMore) + KeyBytes(nextKey)
  }

  function WithNote(part: Part, row: Note): Part {
    part.(notes := part.notes + [row])
  }

  function WithOmission(w: Weigher, part: Part, row: Note): Part {
    part.(omitted := part.omitted
      + [Omission(row.key, row.revision, PageBytes(w, WithNote(part, row), false, Some(row.key)))])
  }

  function Processed(part: Part): nat {
    |part.notes| + |part.omitted|
  }

  /** The loop of `getContext` over the rows still to come. */
  function Fill(w: Weigher, budget: nat, rows: seq<Note>, part: Part): (r: Result<Part>)
    ensures r.Ok? ==> Processed(r.value) <= Processed(part) + |rows|
  {
    if rows == [] then Ok(part)
    else
      var row := rows[0];
      if PageBytes(w, WithNote(part, row), false, Some(row.key)) <= budget
        then Fill(w, budget, rows[1..], WithNote(part, row))
      else if part.notes != [] then Ok(part)
      else if PageBytes(w, WithOmission(w, part, row), false, Some(row.key)) <= budget
      then Fill(w, budget, rows[1..], WithOmission(w, part, row))
      else if Processed(part) == 0 then Err(INVALID_ARGUMENT)
      else Ok(part)
  }

  function First(rows: seq<Note>, limit: nat): (r: seq<Note>)
    ensures |r| <= limit && r <= rows
  {
    if |rows| <= limit then rows else rows[..limit]
  }

  function Finish(w: Weigher, budget: nat, rows: seq<Note>, head: nat, after: Option<string>, part: Part): Result<Page>
    requires Processed(part) <= |rows|
  {
    var n := Processed(part);
    var hasMore := n < |rows|;
    var last := if n == 0 then after else Some(rows[n - 1].key);
    var page := Page(head, part, hasMore, if hasMore then last else None);
    if PageBytes(w, part, hasMore, page.nextKey) > budget then Err(INTERNAL) else Ok(page)
  }

  /** `getContext` on the rows its query returned, at most one more than the limit. */
  function ContextPage(w: Weigher, budget: nat, rows: seq<Note>, limit: nat, head: nat,
      after: Option<string>): Result<Page> {
    if PageBytes(w, Part([], []), false, None) > budget then Err(INVALID_ARGUMENT)
    else
      var part :- Fill(w, budget, First(rows, limit), Part([], []));
      Finish(w, budget, rows, head, after, part)
  }

  method BuildContext(w: Weigher, budget: nat, rows: seq<Note>, limit: nat, head: nat,
      after: Option<string>) returns (r: Result<Page>)
    ensures r == ContextPage(w, budget, rows, limit, head, after)
  {
    var part := Part([], []);
    if PageBytes(w, part, false, None) > budget { return Err(INVALID_ARGUMENT); }
    var slice := First(rows, limit);
    ghost var whole := Fill(w, budget, slice, part);
    var last := after;
    var processed := 0;
    var i := 0;
    while i < |slice|
      invariant 0 <= i == processed == Processed(part) <= |slice|
      invariant Fill(w, budget, slice[i..], part) == whole
      invariant last == if i == 0 then after else Some(slice[i - 1].key)
    {
      var row := slice[i];
      assert slice[i..][0] == row && slice[i..][1..] == slice[i + 1..];
      var candidate := PageBytes(w, WithNote(part, row), false, Some(row.key));
      if candidate > budget {
        if |part.notes| > 0 { break; }
        var omission := Part(part.notes, part.omitted + [Omission(row.key, row.revision, candidate)]);
        if PageBytes(w, omission, false, Some(row.key)) > budget {
          if processed == 0 { return Err(INVALID_ARGUMENT); }
          break;
        }
        part := omission;
      } else {
        part := WithNote(part, row);
      }
      last := Some(row.key);
      processed := processed + 1;
      i := i + 1;
    }
    assert whole == Ok(part);
    var hasMore := processed < |rows|;
    var page := Page(head, part, hasMore, if hasMore then last else None);
    if PageBytes(w, part, hasMore, page.nextKey) > budget { return Err(INTERNAL); }
    return Ok(page);
  }

  datatype Request = Request(
    scope: string, keys: Option<seq<string>>, lifecycles: Option<seq<Lifecycle>>, afterKey: Option<string>,
    atCursor: Option<int>, limit: Option<int>, maxBytes: Option<int>)

  predicate KeyStart(c: char) {
    'a' <= c <= 'z' || 'A' <= c <= 'Z' || '0' <= c <= '9'
  }

  /** `checkKey` accepts one to 128 characters from a fixed alphabet. */
  predicate ValidKey(k: string) {
    && 1 <= |k| <= 128
    && KeyStart(k[0])
    && forall c :: c in k ==> KeyStart(c) || c in "._:/-"
  }

  /** `integer`: the default when absent, and a closed range. */
  function Ranged(value: Option<int>, fallback: int, min: int, max: int): Result<int> {
    var v := if value.None? then fallback else value.value;
    if v < min || v > max || v > MAX_SAFE then Err(INVALID_ARGUMENT) else Ok(v)
  }

  function QueryOf(r: Request, head: nat): Query {
    Query(r.scope, head, r.keys, if r.lifecycles.None? then [Active] else r.lifecycles.value, r.afterKey)
  }

  /** `getContext` on the state of the service. */
  function GetContext(m: Memory, w: Weigher, r: Request): Result<Page> {
    var limit :- Ranged(r.limit, 20, 1, 50);
    var budget :- Ranged(r.maxBytes, 16 * 1024, 2048, 64 * 1024);
    if r.afterKey.Some? && !ValidKey(r.afterKey.value) then Err(INVALID_ARGUMENT)
    else if r.keys.Some? && !(1 <= |r.keys.value| <= 100) then Err(INVALID_ARGUMENT)
    else if r.keys.Some? && exists k :: k in r.keys.value && !ValidKey(k) then Err(INVALID_ARGUMENT)
    else if r.lifecycles == Some([]) then Err(INVALID_ARGUMENT)
    else
      var head :- Ranged(r.atCursor, m.lastEvent, 0, m.lastEvent);
      var rows := First(ListNotes(m.rows, QueryOf(r, head)), limit + 1);
      ContextPage(w, budget, rows, limit, head, r.afterKey)
  }

  // ---------------------------------------------------------------- one page

  /** The part carries exactly these rows, each once and in order: first those it omits, then whole notes. */
  ghost predicate Carries(part: Part, rows: seq<Note>) {
    && Processed(part) == |rows|
    && part.notes == rows[|part.omitted|..]
    && forall i :: 0 <= i < |part.omitted| ==>
      part.omitted[i].key == rows[i].key && part.omitted[i].revision == rows[i].revision
  }

  /** The measure the loop took when it accepted the last of `rows`. */
  ghost predicate Fits(w: Weigher, budget: nat, part: Part, rows: seq<Note>) {
    rows != [] ==> PageBytes(w, part, false, Some(rows[|rows| - 1].key)) <= budget
  }

  lemma CarriesOneMore(w: Weigher, part: Part, rows: seq<Note>, row: Note)
    requires Carries(part, rows)
    ensures Carries(WithNote(part, row), rows + [row])
    ensures part.notes == [] ==> Carries(WithOmission(w, part, row), rows + [row])
  {
  }

  lemma {:induction false} FillCarries(w: Weigher, budget: nat, done: seq<Note>, rows: seq<Note>, part: Part)
    requires Carries(part, done) && Fits(w, budget, part, done) && Fill(w, budget, rows, part).Ok?
    ensures var p := Fill(w, budget, rows, part).value; var n := Processed(p);
      |done| <= n && Carries(p, (done + rows)[..n]) && Fits(w, budget, p, (done + rows)[..n])
    ensures rows != [] && done == [] ==> Processed(Fill(w, budget, rows, part).value) > 0
    decreases |rows|
  {
    assert (done + rows)[..|done|] == done;
    if rows != [] {
      var row := rows[0];
      CarriesOneMore(w, part, done, row);
      assert done + [row] + rows[1..] == done + rows;
      if PageBytes(w, WithNote(part, row), false, Some(row.key)) <= budget {
        FillCarries(w, budget, done + [row], rows[1..], WithNote(part, row));
      } else if part.notes == [] && PageBytes(w, WithOmission(w, part, row), false, Some(row.key)) <= budget {
        FillCarries(w, budget, done + [row], rows[1..], WithOmission(w, part, row));
      }
    }
  }

  /** The first rows of the listing, at least one if there is any, in a page that fits; and where to go on. */
  ghost predicate ExactPage(w: Weigher, budget: nat, rows: seq<Note>, limit: nat, page: Page) {
    var n := Processed(page.part);
    && n <= limit && n <= |rows| && (rows != [] && limit > 0 ==> n > 0)
    && Carries(page.part, rows[..n])
    && (page.hasMore <==> n < |rows|)
    && page.nextKey == (if page.hasMore && n > 0 then Some(rows[n - 1].key) else None)
    && PageBytes(w, page.part, page.hasMore, page.nextKey) <= budget
  }

  lemma FirstFill(w: Weigher, budget: nat, rows: seq<Note>, limit: nat)
    requires limit > 0 && Fill(w, budget, First(rows, limit), Part([], [])).Ok?
    ensures var p := Fill(w, budget, First(rows, limit), Part([], [])).value; var n := Processed(p);
      && n <= limit && n <= |rows| && Fits(w, budget, p, rows[..n]) && Carries(p, rows[..n])
      && (n == 0 ==> rows == [] && p == Part([], []))
  {
    var slice := First(rows, limit);
    FillCarries(w, budget, [], slice, Part([], []));
    hide Fill;
    var n := Processed(Fill(w, budget, slice, Part([], [])).value);
    assert [] + slice == slice;
    assert slice[..n] == rows[..n];
  }

  lemma PageIsExact(w: Weigher, budget: nat, rows: seq<Note>, limit: nat, head: nat, after: Option<string>)
    requires ContextPage(w, budget, rows, limit, head, after).Ok? && limit > 0
    ensures var page := ContextPage(w, budget, rows, limit, head, after).value;
      ExactPage(w, budget, rows, limit, page) && page.head == head
  {
    hide Fill, Carries, Fits, PageBytes;
    FirstFill(w, budget, rows, limit);
  }

  /** A last page whose last key has one character, measured by the loop at exactly the budget. */
  ghost predicate FilledToTheByte(w: Weigher, budget: nat, rows: seq<Note>, part: Part) {
    && rows != [] && Processed(part) == |rows| && |rows[|rows| - 1].key| == 1
    && PageBytes(w, part, false, Some(rows[|rows| - 1].key)) == budget
  }

  lemma FinishInternal(w: Weigher, budget: nat, rows: seq<Note>, head: nat, after: Option<string>, part: Part)
    requires Processed(part) <= |rows| && Fits(w, budget, part, rows[..Processed(part)])
    requires forall i :: 0 <= i < |rows| ==> rows[i].key != ""
    requires Processed(part) == 0 ==> rows == [] && PageBytes(w, part, false, None) <= budget
    ensures Finish(w, budget, rows, head, after, part) == Err(INTERNAL) <==> FilledToTheByte(w, budget, rows, part)
  {
    var n := Processed(part);
    if n > 0 { assert rows[..n][n - 1] == rows[n - 1]; }
  }

  /** The closing check fails exactly when the loop ends on such a page. */
  lemma InternalExactly(w: Weigher, budget: nat, rows: seq<Note>, limit: nat, head: nat, after: Option<string>)
    requires limit > 0 && forall i :: 0 <= i < |rows| ==> rows[i].key != ""
    ensures ContextPage(w, budget, rows, limit, head, after) == Err(INTERNAL) <==>
      && PageBytes(w, Part([], []), false, None) <= budget
      && var filled := Fill(w, budget, First(rows, limit), Part([], []));
         filled.Ok? && FilledToTheByte(w, budget, rows, filled.value)
  {
    hide FilledToTheByte, Fill, Finish, Fits, PageBytes, Carries;
    var slice, empty := First(rows, limit), Part([], []);
    var filled := Fill(w, budget, slice, empty);
    FillNeverInternal(w, budget, slice, empty);
    if PageBytes(w, empty, false, None) <= budget && filled.Ok? {
      FirstFill(w, budget, rows, limit);
      FinishInternal(w, budget, rows, head, after, filled.value);
    }
  }

  lemma {:induction false} FillNeverInternal(w: Weigher, budget: nat, rows: seq<Note>, part: Part)
    ensures Fill(w, budget, rows, part).Err? ==> Fill(w, budget, rows, part).code == INVALID_ARGUMENT
    decreases |rows|
  {
    if rows != [] {
      FillNeverInternal(w, budget, rows[1..], WithNote(part, rows[0]));
      FillNeverInternal(w, budget, rows[1..], WithOmission(w, part, rows[0]));
    }
  }

  // ---------------------------------------------------------------- following next_key

  function Tags(rows: seq<Note>): seq<(string, nat)> {
    seq(|rows|, i requires 0 <= i < |rows| => (rows[i].key, rows[i].revision))
  }

  /** What a page hands over, in order. */
  function PageTags(p: Page): seq<(string, nat)> {
    seq(|p.part.omitted|,
      i requires 0 <= i < |p.part.omitted| => (p.part.omitted[i].key, p.part.omitted[i].revision)) + Tags(p.part.notes)
  }

  function Delivered(pages: seq<Page>): seq<(string, nat)> {
    if pages == [] then [] else Delivered(pages[..|pages| - 1]) + PageTags(pages[|pages| - 1])
  }

  lemma CarriedTags(p: Page, rows: seq<Note>)
    requires Carries(p.part, rows)
    ensures PageTags(p) == Tags(rows)
  {
  }

  /** One call of the reader: in which state of the run it comes, and with which sizes, limit and budget. */
  datatype Call = Call(at: nat, w: Weigher, limit: Option<int>, maxBytes: Option<int>)

  /** The first call, or the one that follows a page: same filters, the page's cursor and its next key. */
  function RequestFor(base: Request, call: Call, previous: Option<Page>): Request {
    var sized := base.(limit := call.limit, maxBytes := call.maxBytes);
    if previous.None? then sized else sized.(atCursor := Some(previous.value.head), afterKey := previous.value.nextKey)
  }

  ghost predicate CallAnswered(states: seq<Memory>, base: Request, calls: seq<Call>, pages: seq<Page>, i: nat)
    requires |calls| == |pages| && i < |pages|
  {
    && calls[i].at < |states|
    && var r := RequestFor(base, calls[i], if i == 0 then None else Some(pages[i - 1]));
       GetContext(states[calls[i].at], calls[i].w, r) == Ok(pages[i])
  }

  /** The reader follows `next_key` while the log grows; every page but perhaps the last said there was more. */
  ghost predicate Reading(states: seq<Memory>, base: Request, calls: seq<Call>, pages: seq<Page>) {
    && |calls| == |pages| >= 1
    && (forall i :: 0 <= i < |calls| ==> calls[0].at <= calls[i].at < |states|)
    && (forall i :: 0 <= i < |pages| ==> CallAnswered(states, base, calls, pages, i))
    && (forall i :: 0 <= i < |pages| - 1 ==> pages[i].hasMore)
  }

  /** Everything the reader asked for, as it was at the first page's cursor. */
  ghost function Wanted(states: seq<Memory>, base: Request, calls: seq<Call>, pages: seq<Page>): seq<Note>
    requires Reading(states, base, calls, pages)
  {
    assert CallAnswered(states, base, calls, pages, 0);
    ListNotes(states[calls[0].at].rows, QueryOf(base, pages[0].head))
  }

  function Above(notes: seq<Note>, key: string): seq<Note> {
    if notes == [] then []
    else (if Less(key, notes[0].key) then [notes[0]] else []) + Above(notes[1..], key)
  }

  lemma {:induction false} AboveSuffix(notes: seq<Note>, n: nat)
    requires KeyOrdered(notes) && 0 < n <= |notes|
    ensures Above(notes, notes[n - 1].key) == notes[n..]
  {
    var key := notes[n - 1].key;
    LessTrichotomy(notes[0].key, key);
    if n == 1 {
      AllAbove(notes[1..], key);
    } else {
      assert Less(notes[0].key, key);
      AboveSuffix(notes[1..], n - 1);
      assert notes[1..][n - 1..] == notes[n..];
    }
  }

  lemma {:induction false} AllAbove(notes: seq<Note>, key: string)
    requires forall i :: 0 <= i < |notes| ==> Less(key, notes[i].key)
    ensures Above(notes, key) == notes
  {
    if notes != [] {
      AllAbove(notes[1..], key);
    }
  }

  lemma {:induction false} AboveConcat(a: seq<Note>, b: seq<Note>, key: string)
    ensures Above(a + b, key) == Above(a, key) + Above(b, key)
  {
    if a == [] {
      assert a + b == b;
    } else {
      AboveConcat(a[1..], b, key);
      assert (a + b)[1..] == a[1..] + b && (a + b)[0] == a[0];
      var first := if Less(key, a[0].key) then [a[0]] else [];
      hide Less;
      assert first + (Above(a[1..], key) + Above(b, key)) == first + Above(a[1..], key) + Above(b, key);
    }
  }

  ghost predicate StartsAbove(q: Query, key: string) {
    q.after.Some? ==> Less(q.after.value, key) || q.after.value == key
  }

  lemma {:induction false} SelectAfter(keys: seq<string>, rows: seq<Note>, q: Query, key: string)
    requires StartsAbove(q, key)
    ensures SelectLatest(keys, rows, q.(after := Some(key))) == Above(SelectLatest(keys, rows, q), key)
  {
    if keys != [] {
      var q' := q.(after := Some(key));
      SelectAfter(keys[1..], rows, q, key);
      var m := Latest(rows, q.scope, keys[0], Some(q.before));
      if m.Some? {
        if q.after.Some? && q.after.value != key
          && Less(key, m.value.key) { LessTransitive(q.after.value, key, m.value.key); }
        assert Accepts(q', m.value) <==> Accepts(q, m.value) && Less(key, m.value.key);
      }
      hide Latest, Accepts;
      var here := if m.Some? && Accepts(q, m.value) then [m.value] else [];
      AboveConcat(here, SelectLatest(keys[1..], rows, q), key);
      assert Above(here, key) == if m.Some? && Accepts(q', m.value) then [m.value] else [];
    }
  }

  /** Asking again after the n-th row gives the rest of the listing. */
  lemma AskAgain(rows: seq<Note>, q: Query, n: nat)
    requires Valid(rows) && 0 < n <= |ListNotes(rows, q)|
    ensures ListNotes(rows, q.(after := Some(ListNotes(rows, q)[n - 1].key))) == ListNotes(rows, q)[n..]
  {
    var all := ListNotes(rows, q);
    var key := all[n - 1].key;
    ListNotesExact(rows, q);
    assert all[n - 1] in all;
    assert Accepts(q, all[n - 1]);
    hide Valid, Accepts, IsLatest;
    SelectAfter(SortDistinct(KeysOf(rows, q.scope)), rows, q, key);
    AboveSuffix(all, n);
  }

  /** A page of the rest of a listing. */
  ghost predicate Advances(rest: seq<Note>, page: Page) {
    var n := Processed(page.part);
    && n <= |rest| && (rest != [] ==> n > 0)
    && PageTags(page) == Tags(rest[..n])
    && (page.hasMore <==> n < |rest|)
    && page.nextKey == (if page.hasMore then Some(rest[n - 1].key) else None)
  }

  lemma ExactAdvances(w: Weigher, budget: nat, rest: seq<Note>, limit: nat, page: Page)
    requires limit > 0 && ExactPage(w, budget, First(rest, limit + 1), limit, page)
    ensures Advances(rest, page)
  {
    hide Carries, PageBytes;
    var n := Processed(page.part);
    assert First(rest, limit + 1)[..n] == rest[..n];
    CarriedTags(page, rest[..n]);
    hide Tags, PageTags;
  }

  lemma ContextAdvances(m: Memory, w: Weigher, r: Request)
    requires GetContext(m, w, r).Ok?
    ensures var page := GetContext(m, w, r).value;
      page.head <= m.lastEvent && (r.atCursor.Some? ==> page.head == r.atCursor.value)
      && Advances(ListNotes(m.rows, QueryOf(r, page.head)), page)
  {
    hide ListNotes, ContextPage, ExactPage, Advances, QueryOf, First;
    var limit, budget := Ranged(r.limit, 20, 1, 50).value, Ranged(r.maxBytes, 16 * 1024, 2048, 64 * 1024).value;
    var head := Ranged(r.atCursor, m.lastEvent, 0, m.lastEvent).value;
    var rest := ListNotes(m.rows, QueryOf(r, head));
    PageIsExact(w, budget, First(rest, limit + 1), limit, head, r.afterKey);
    ExactAdvances(w, budget, rest, limit, GetContext(m, w, r).value);
  }

  /**
   * After k pages the reader has received exactly the first n rows, each once, with n at least k unless nothing is
   * wanted.
   */
  ghost predicate ReadSoFar(wanted: seq<Note>, pages: seq<Page>, n: nat) {
    && pages != [] && n <= |wanted|
    && Delivered(pages) == Tags(wanted[..n])
    && (wanted != [] ==> |pages| <= n)
    && (pages[|pages| - 1].hasMore <==> n < |wanted|)
    && pages[|pages| - 1].nextKey == (if pages[|pages| - 1].hasMore then Some(wanted[n - 1].key) else None)
  }

  lemma ReadOneMore(wanted: seq<Note>, pages: seq<Page>, n: nat, page: Page)
    requires ReadSoFar(wanted, pages, n) && n < |wanted| && Advances(wanted[n..], page)
    ensures ReadSoFar(wanted, pages + [page], n + Processed(page.part))
  {
    var k := Processed(page.part);
    assert (pages + [page])[..|pages|] == pages;
    assert wanted[n..][..k] == wanted[n..n + k];
    assert wanted[..n] + wanted[n..n + k] == wanted[..n + k];
    assert Tags(wanted[..n]) + Tags(wanted[n..n + k]) == Tags(wanted[..n + k]);
  }

  lemma ReadingPrefix(states: seq<Memory>, base: Request, calls: seq<Call>, pages: seq<Page>, n: nat)
    requires Reading(states, base, calls, pages) && 0 < n <= |pages|
    ensures Reading(states, base, calls[..n], pages[..n])
  {
    hide GetContext;
    forall i | 0 <= i < n ensures CallAnswered(states, base, calls[..n], pages[..n], i) {
      assert CallAnswered(states, base, calls, pages, i);
    }
  }

  lemma {:induction false} ReadingAdvances(states: seq<Memory>, steps: seq<Step>, base: Request, calls: seq<Call>,
      pages: seq<Page>) returns (n: nat)
    requires Run(states, steps) && Reading(states, base, calls, pages)
    ensures ReadSoFar(Wanted(states, base, calls, pages), pages, n)
    ensures pages[0].head <= states[calls[0].at].lastEvent && pages[|pages| - 1].head == pages[0].head
    decreases |pages|
  {
    hide GetContext, ListNotes, Run, Advances, ReadSoFar;
    var last := |pages| - 1;
    var wanted := Wanted(states, base, calls, pages);
    if last == 0 {
      assert CallAnswered(states, base, calls, pages, 0);
      ContextAdvances(states[calls[0].at], calls[0].w, RequestFor(base, calls[0], None));
      FirstPage(wanted, pages[0]);
      assert pages == [pages[0]];
      n := Processed(pages[0].part);
    } else {
      ReadingPrefix(states, base, calls, pages, last);
      var earlier := pages[..last];
      var k := ReadingAdvances(states, steps, base, calls[..last], earlier);
      assert earlier[|earlier| - 1] == pages[last - 1];
      NextPage(states, steps, base, calls, pages, k);
      ReadOneMore(wanted, earlier, k, pages[last]);
      assert pages == earlier + [pages[last]];
      n := k + Processed(pages[last].part);
    }
  }

  lemma FirstPage(wanted: seq<Note>, page: Page)
    requires Advances(wanted, page)
    ensures ReadSoFar(wanted, [page], Processed(page.part))
  {
    assert [page][..0] == [];
    assert Delivered([page]) == PageTags(page);
  }

  lemma NextPage(states: seq<Memory>, steps: seq<Step>, base: Request, calls: seq<Call>, pages: seq<Page>, k: nat)
    requires Run(states, steps) && Reading(states, base, calls, pages) && |pages| > 1
    requires var wanted := Wanted(states, base, calls, pages); ReadSoFar(wanted, pages[..|pages| - 1], k)
    requires pages[0].head <= states[calls[0].at].lastEvent && pages[|pages| - 2].head == pages[0].head
    ensures var wanted := Wanted(states, base, calls, pages);
      k < |wanted| && Advances(wanted[k..], pages[|pages| - 1]) && pages[|pages| - 1].head == pages[0].head
  {
    hide GetContext, ListNotes, Run, Advances;
    var last := |pages| - 1;
    var wanted := Wanted(states, base, calls, pages);
    assert pages[..last][last - 1] == pages[last - 1];
    assert pages[last - 1].hasMore;
    var r := RequestFor(base, calls[last], Some(pages[last - 1]));
    var m := states[calls[last].at];
    assert CallAnswered(states, base, calls, pages, last);
    ContextAdvances(m, calls[last].w, r);
    var q := QueryOf(base, pages[0].head);
    FrozenSnapshot(states, steps, calls[0].at, calls[last].at, "", "", 0, q);
    RunExtends(states, steps, calls[last].at, calls[last].at);
    AskAgain(m.rows, q, k);
  }

  /**
   * Following `next_key` delivers exactly the rows wanted, each once and in order, as a whole note or a named omission:
   * a prefix of them at any moment, all of them once a page says there is no more, and in at most as many pages.
   */
  lemma PagingIsExact(states: seq<Memory>, steps: seq<Step>, base: Request, calls: seq<Call>, pages: seq<Page>)
    requires Run(states, steps) && Reading(states, base, calls, pages)
    ensures var wanted := Wanted(states, base, calls, pages);
      && Delivered(pages) <= Tags(wanted)
      && (pages[|pages| - 1].hasMore <==> Delivered(pages) != Tags(wanted))
      && |pages| <= if wanted == [] then 1 else |wanted|
  {
    var n := ReadingAdvances(states, steps, base, calls, pages);
    var wanted := Wanted(states, base, calls, pages);
    hide Run, Reading, Wanted, ListNotes;
    assert Tags(wanted[..n]) == Tags(wanted)[..n];
    assert n == |wanted| ==> wanted[..n] == wanted;
    if wanted == [] && |pages| > 1 { MorePagesMoreRows(states, base, calls, pages, steps); }
  }

  lemma MorePagesMoreRows(states: seq<Memory>, base: Request, calls: seq<Call>, pages: seq<Page>, steps: seq<Step>)
    requires Run(states, steps) && Reading(states, base, calls, pages) && |pages| > 1
    ensures Wanted(states, base, calls, pages) != []
  {
    ReadingPrefix(states, base, calls, pages, 1);
    var n := ReadingAdvances(states, steps, base, calls[..1], pages[..1]);
    assert pages[..1][0].hasMore;
  }
}
