/**
 * Mutations applied at most once per idempotency key (shared/control-plane/src/idempotency.ts:17-95).
 *
 * `S` is everything else in the store. A request is fingerprinted by hashing its `stableStringify` text.
 */
module Idempotency {
  import opened Bridge
  import opened Utf16
  import opened CanonicalJson
  import opened CanonicalProofs
  import opened CanonicalOrder

  type Hash = Text16 -> string

  datatype Row = Row(operation: string, requestHash: string, response: string)

  datatype Store<S> = Store(rest: S, rows: map<string, Row>)

  /** A caller's operation, its request, and what it does to the store when it is applied. */
  datatype Call<!S> = Call(key: Option<string>, operation: string, request: Value, fn: S -> Result<(S, string)>)

  function HashRequest(hash: Hash, num: Printer, request: Value): string {
    hash(StableStringify(num, request))
  }

  /** The answer of a call: its response, and whether the mutation was applied now. */
  datatype Answer<S> = Answer(store: Store<S>, response: string, applied: bool)

  /** The answer from a row that is already there. */
  function FromRow<S>(s: Store<S>, row: Row, operation: string, fingerprint: string): Result<Answer<S>> {
    if row.operation != operation || row.requestHash != fingerprint then Err(IDEMPOTENCY_MISMATCH)
    else Ok(Answer(s, row.response, false))
  }

  /**
   * `runIdempotent`. The key is first looked up in `before`, the rows of some earlier moment, and once more inside the
   * transaction. An operation that throws is rolled back and leaves no row.
   */
  function RunIdempotent<S>(before: map<string, Row>, s: Store<S>, hash: Hash, num: Printer,
      call: Call<S>): Result<Answer<S>> {
    if call.key.None? || call.key.value == "" then
      var r :- call.fn(s.rest);
      Ok(Answer(s.(rest := r.0), r.1, true))
    else
      var key, fingerprint := call.key.value, HashRequest(hash, num, call.request);
      if key in before then FromRow(s, before[key], call.operation, fingerprint)
      else if key in s.rows then FromRow(s, s.rows[key], call.operation, fingerprint)
      else
        var r :- call.fn(s.rest);
        Ok(Answer(Store(r.0, s.rows[key := Row(call.operation, fingerprint, r.1)]), r.1, true))
  }

  /** The table and the rest of the store, changed in place by one transaction. */
  class Ledger<!S> {
    var rest: S
    var rows: map<string, Row>

    function View(): Store<S>
      reads this
    {
      Store(rest, rows)
    }

    constructor (rest: S)
      ensures View() == Store(rest, map[])
    {
      this.rest, rows := rest, map[];
    }

    /** `before` holds the rows as the lookup ahead of the transaction saw them. */
    method Run(before: map<string, Row>, hash: Hash, num: Printer, call: Call<S>) returns (r: Result<string>)
      modifies this
      ensures match RunIdempotent(before, old(View()), hash, num, call)
        case Ok(a) => r == Ok(a.response) && View() == a.store
        case Err(c) => r == Err(c) && View() == old(View())
    {
      if call.key.None? || call.key.value == "" {
        var plain :- call.fn(rest);
        rest := plain.0;
        return Ok(plain.1);
      }
      var key, fingerprint := call.key.value, HashRequest(hash, num, call.request);
      if key in before {
        if before[key].operation != call.operation || before[key].requestHash != fingerprint {
          return Err(IDEMPOTENCY_MISMATCH);
        }
        return Ok(before[key].response);
      }
      if key in rows {
        if rows[key].operation != call.operation || rows[key].requestHash != fingerprint {
          return Err(IDEMPOTENCY_MISMATCH);
        }
        return Ok(rows[key].response);
      }
      var result :- call.fn(rest);
      rest := result.0;
      rows := rows[key := Row(call.operation, fingerprint, result.1)];
      return Ok(result.1);
    }
  }

  // ---------------------------------------------------------------- one call

  /** Without a key, or with an empty one, every call is applied and leaves no row. */
  lemma KeylessIsApplied<S>(before: map<string, Row>, s: Store<S>, hash: Hash, num: Printer, call: Call<S>)
    requires call.key == None || call.key == Some("")
    ensures RunIdempotent(before, s, hash, num, call) ==
      match call.fn(s.rest)
      case Ok(r) => Ok(Answer(Store(r.0, s.rows), r.1, true))
      case Err(c) => Err(c)
  {
  }

  /** The first call with a key is applied, and leaves a row with its operation, its fingerprint and its response. */
  lemma FirstCallIsApplied<S>(before: map<string, Row>, s: Store<S>, hash: Hash, num: Printer, call: Call<S>)
    requires call.key.Some? && call.key != Some("") && call.key.value !in before && call.key.value !in s.rows
    ensures RunIdempotent(before, s, hash, num, call) ==
      match call.fn(s.rest)
      case Ok(r) =>
        var row := Row(call.operation, hash(StableStringify(num, call.request)), r.1);
        Ok(Answer(Store(r.0, s.rows[call.key.value := row]), r.1, true))
      case Err(c) => Err(c)
  {
  }

  // ---------------------------------------------------------------- runs

  /** The store a call leaves behind, whether it was answered or refused. */
  function After<S>(before: map<string, Row>, s: Store<S>, hash: Hash, num: Printer, call: Call<S>): Store<S> {
    var r := RunIdempotent(before, s, hash, num, call);
    if r.Ok? then r.value.store else s
  }

  /**
   * Concurrent calls: each commits in the order listed, and made its first lookup at some moment no later than its
   * commit.
   */
  ghost predicate History<S>(states: seq<Store<S>>, hash: Hash, num: Printer, calls: seq<Call<S>>, lookups: seq<nat>) {
    && |states| == |calls| + 1 && |lookups| == |calls|
    && (forall i :: 0 <= i < |calls| ==> lookups[i] <= i)
    && forall i :: 0 <= i < |calls| ==> states[i + 1] == After(states[lookups[i]].rows, states[i], hash, num, calls[i])
  }

  /** What the i-th call of a history was answered. */
  ghost function AnswerOf<S>(states: seq<Store<S>>, hash: Hash, num: Printer, calls: seq<Call<S>>, lookups: seq<nat>,
      i: nat): Result<Answer<S>>
    requires History(states, hash, num, calls, lookups) && i < |calls|
  {
    RunIdempotent(states[lookups[i]].rows, states[i], hash, num, calls[i])
  }

  /** A row, once written, stays as it is. */
  lemma {:induction false} RowsStay<S>(states: seq<Store<S>>, hash: Hash, num: Printer, calls: seq<Call<S>>,
      lookups: seq<nat>, i: nat, j: nat, key: string)
    requires History(states, hash, num, calls, lookups) && i <= j < |states| && key in states[i].rows
    ensures key in states[j].rows && states[j].rows[key] == states[i].rows[key]
    decreases j - i
  {
    if i < j {
      RowsStay(states, hash, num, calls, lookups, i, j - 1, key);
      assert states[j - 1 + 1] == After(states[lookups[j - 1]].rows, states[j - 1], hash, num, calls[j - 1]);
    }
  }

  /** The lookup ahead of the transaction never answers differently from the one inside it, however early it was. */
  lemma EarlyLookupAgrees<S>(states: seq<Store<S>>, hash: Hash, num: Printer, calls: seq<Call<S>>, lookups: seq<nat>,
      i: nat)
    requires History(states, hash, num, calls, lookups) && i < |calls|
    ensures AnswerOf(states, hash, num, calls, lookups, i) == RunIdempotent(map[], states[i], hash, num, calls[i])
  {
    if calls[i].key.Some? && calls[i].key.value in states[lookups[i]].rows {
      RowsStay(states, hash, num, calls, lookups, lookups[i], i, calls[i].key.value);
    }
  }

  /** After a keyed call was answered, its row holds its operation, its fingerprint and its response. */
  lemma AnsweredHasRow<S>(s: Store<S>, hash: Hash, num: Printer, call: Call<S>)
    requires call.key.Some? && call.key.value != "" && RunIdempotent(map[], s, hash, num, call).Ok?
    ensures var a := RunIdempotent(map[], s, hash, num, call).value; var key := call.key.value;
      key in a.store.rows && a.store.rows[key] == Row(call.operation, HashRequest(hash, num, call.request), a.response)
  {
  }

  /** The same operation on a request with the same fingerprint. */
  predicate Repeats<S>(hash: Hash, num: Printer, again: Call<S>, first: Call<S>) {
    again.operation == first.operation && HashRequest(hash, num, again.request) == HashRequest(hash, num, first.request)
  }

  /**
   * At most once: of all calls with one key, over any history, only the first that is answered applies its
   * mutation; every later one is answered with the same response exactly when operation and fingerprint are
   * the same, and is refused otherwise.
   */
  lemma AtMostOnce<S>(states: seq<Store<S>>, hash: Hash, num: Printer, calls: seq<Call<S>>, lookups: seq<nat>, i: nat,
      j: nat)
    requires History(states, hash, num, calls, lookups) && i < j < |calls|
    requires calls[i].key.Some? && calls[i].key.value != "" && calls[j].key == calls[i].key
    requires AnswerOf(states, hash, num, calls, lookups, i).Ok?
    ensures var first, again := AnswerOf(states, hash, num, calls, lookups, i),
      AnswerOf(states, hash, num, calls, lookups, j);
      && (again.Ok? <==> Repeats(hash, num, calls[j], calls[i]))
      && (again.Ok? ==>
        !again.value.applied && again.value.response == first.value.response && again.value.store == states[j])
      && (again.Err? ==> again.code == IDEMPOTENCY_MISMATCH)
  {
    EarlyLookupAgrees(states, hash, num, calls, lookups, i);
    EarlyLookupAgrees(states, hash, num, calls, lookups, j);
    AnsweredHasRow(states[i], hash, num, calls[i]);
    assert states[i + 1] == After(states[lookups[i]].rows, states[i], hash, num, calls[i]);
    RowsStay(states, hash, num, calls, lookups, i + 1, j, calls[i].key.value);
  }

  /**
   * Unless these two texts collide, fingerprints are equal exactly for requests that agree up to key order and what
   * `stableStringify` leaves out.
   */
  lemma FingerprintsDecide(hash: Hash, num: Printer, a: Value, b: Value)
    requires PrintsNumbers(num) && Valid(a) && Valid(b)
    requires hash(StableStringify(num, a)) == hash(StableStringify(num, b)) ==>
      StableStringify(num, a) == StableStringify(num, b)
    ensures HashRequest(hash, num, a) == HashRequest(hash, num, b) <==> Same(Clean(a), Clean(b))
  {
    StableDecides(num, a, b);
    hide StableStringify, Same, Clean, Valid;
  }
}
