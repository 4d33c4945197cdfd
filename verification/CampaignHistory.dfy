/**
 * The hash-chained history of hypotheses (shared/web-audit/src/evidence.ts:27-40 and 116-132) and the part of
 * `parseCampaign` that accepts it (shared/web-audit/src/validation.ts:162-172).
 *
 * Digests, the parsing of timestamps and the test for blank text are parameters.
 */
module CampaignHistory {
  import opened Bridge

  datatype Status = UNTESTED | INCONCLUSIVE | REJECTED | CONFIRMED

  datatype EventKind = CREATED | REVIEWED | REOPENED

  /** The definition of a hypothesis, without status, evidence and history. */
  datatype Draft = Draft(id: string, definition: string)

  /** A history event without its own hash. */
  datatype Body = Body(
    sequence: nat, at: string, kind: EventKind, status: Status, reason: string, receipts: seq<string>,
    definition: string, previous: Option<string>)

  datatype HistoryEvent = HistoryEvent(body: Body, hash: string)

  datatype Hypothesis = Hypothesis(draft: Draft, status: Status, evidenceSince: string, history: seq<HistoryEvent>)

  /** `captures` holds the ids of the retained receipts. */
  datatype Campaign = Campaign(hypotheses: seq<Hypothesis>, captures: seq<string>)

  datatype Assessment = Assessment(status: Status, reason: string, receipts: seq<string>)

  datatype World = World(
    parse: string -> Option<int>, blank: string -> bool, digestDraft: Draft -> string, digestBody: Body -> string,
    validDraft: Draft -> bool)

  /** `Date.parse(a) < Date.parse(b)`, false when either is not a date. */
  predicate Earlier(w: World, a: string, b: string) {
    w.parse(a).Some? && w.parse(b).Some? && w.parse(a).value < w.parse(b).value
  }

  // ---------------------------------------------------------------- what parseCampaign accepts

  predicate SchemaOk(w: World, e: HistoryEvent) {
    w.parse(e.body.at).Some? && !w.blank(e.body.reason)
  }

  /** The checks the loop makes on the i-th event. */
  predicate EventOk(w: World, h: Hypothesis, captures: seq<string>, i: nat)
    requires i < |h.history|
  {
    var e := h.history[i];
    && e.body.sequence == i
    && e.body.previous == (if i == 0 then None else Some(h.history[i - 1].hash))
    && e.body.definition == w.digestDraft(h.draft)
    && w.digestBody(e.body) == e.hash
    && (i == 0 ==> e.body.kind == CREATED && e.body.status == UNTESTED)
    && (i > 0 ==> e.body.kind != CREATED && !Earlier(w, e.body.at, h.history[i - 1].body.at))
    && forall id :: id in e.body.receipts ==> id in captures
  }

  predicate Resets(e: HistoryEvent) {
    e.body.kind == CREATED || e.body.kind == REOPENED
  }

  /** When the latest creation or reopening took place. */
  function LastReset(history: seq<HistoryEvent>): Option<string> {
    if history == [] then None
    else if Resets(history[|history| - 1]) then Some(history[|history| - 1].body.at)
    else LastReset(history[..|history| - 1])
  }

  predicate HypothesisOk(w: World, h: Hypothesis, captures: seq<string>) {
    && h.history != []
    && w.validDraft(h.draft)
    && (forall i :: 0 <= i < |h.history| ==> SchemaOk(w, h.history[i]))
    && (forall i :: 0 <= i < |h.history| ==> EventOk(w, h, captures, i))
    && h.history[|h.history| - 1].body.status == h.status
    && LastReset(h.history) == Some(h.evidenceSince)
  }

  /** `parseCampaign`, as far as hypotheses and the receipts they name are concerned. */
  predicate Accepted(w: World, c: Campaign) {
    && (forall i, j :: 0 <= i < j < |c.hypotheses| ==> c.hypotheses[i].draft.id != c.hypotheses[j].draft.id)
    && (forall i, j :: 0 <= i < j < |c.captures| ==> c.captures[i] != c.captures[j])
    && forall h :: h in c.hypotheses ==> HypothesisOk(w, h, c.captures)
  }

  /** The loop of `parseCampaign` over one history, with the running hash. */
  method CheckHistory(w: World, h: Hypothesis, captures: seq<string>) returns (ok: bool)
    requires h.history != [] && w.validDraft(h.draft) && forall i :: 0 <= i < |h.history| ==> SchemaOk(w, h.history[i])
    ensures ok == HypothesisOk(w, h, captures)
  {
    var previous: Option<string> := None;
    var i := 0;
    while i < |h.history|
      invariant 0 <= i <= |h.history|
      invariant previous == if i == 0 then None else Some(h.history[i - 1].hash)
      invariant forall j :: 0 <= j < i ==> EventOk(w, h, captures, j)
    {
      var e := h.history[i];
      if e.body.sequence != i || e.body.previous != previous || e.body.definition != w.digestDraft(h.draft)
        || w.digestBody(e.body) != e.hash || (i == 0 && (e.body.kind != CREATED || e.body.status != UNTESTED))
        || (i > 0 && (e.body.kind == CREATED || Earlier(w, e.body.at, h.history[i - 1].body.at)))
        || exists id :: id in e.body.receipts && id !in captures
      {
        assert !EventOk(w, h, captures, i);
        return false;
      }
      previous := Some(e.hash);
      i := i + 1;
    }
    if h.history[|h.history| - 1].body.status != h.status { return false; }
    var last := |h.history|;
    assert h.history[..last] == h.history;
    while last > 0 && !Resets(h.history[last - 1])
      invariant 0 <= last <= |h.history|
      invariant LastReset(h.history[..last]) == LastReset(h.history)
    {
      assert h.history[..last][..last - 1] == h.history[..last - 1];
      last := last - 1;
    }
    return last > 0 && h.history[last - 1].body.at == h.evidenceSince;
  }

  // ---------------------------------------------------------------- the operations

  /** `event`; it throws on a time that is not a date or lies before the prior event. */
  function NewEvent(w: World, draft: Draft, history: seq<HistoryEvent>, status: Status, reason: string,
      receipts: seq<string>, at: string, kind: EventKind): Result<HistoryEvent> {
    if w.parse(at).None? || (history != [] && Earlier(w, at, history[|history| - 1].body.at)) then Err(INVALID_ARGUMENT)
    else
      var previous := if history == [] then None else Some(history[|history| - 1].hash);
      var body := Body(|history|, at, kind, status, reason, receipts, w.digestDraft(draft), previous);
      Ok(HistoryEvent(body, w.digestBody(body)))
  }

  function CreateHypothesis(w: World, draft: Draft, at: string, reason: string): Result<Hypothesis> {
    if !w.validDraft(draft) then Err(INVALID_ARGUMENT)
    else
      var e :- NewEvent(w, draft, [], UNTESTED, reason, [], at, CREATED);
      Ok(Hypothesis(draft, UNTESTED, at, [e]))
  }

  const NEW_REASON: string := "New unconfirmed hypothesis"

  /** `importCampaign` on drafts with distinct ids. */
  function Import(w: World, drafts: seq<Draft>, at: string): Result<seq<Hypothesis>> {
    if drafts == [] then Ok([])
    else
      var h :- CreateHypothesis(w, drafts[0], at, NEW_REASON);
      var rest :- Import(w, drafts[1..], at);
      Ok([h] + rest)
  }

  function Find(hypotheses: seq<Hypothesis>, id: string): (r: Option<nat>)
    ensures r.Some? ==> r.value < |hypotheses| && hypotheses[r.value].draft.id == id
    ensures r.None? ==> forall h :: h in hypotheses ==> h.draft.id != id
  {
    if hypotheses == [] then None
    else if hypotheses[0].draft.id == id then Some(0)
    else var r := Find(hypotheses[1..], id); if r.None? then None else Some(r.value + 1)
  }

  /** `reviewHypothesis` with the assessment it computed. */
  function Review(w: World, c: Campaign, id: string, a: Assessment, at: string): Result<Campaign> {
    var k := Find(c.hypotheses, id);
    if !Accepted(w, c) || k.None? then Err(INVALID_ARGUMENT)
    else
      var h := c.hypotheses[k.value];
      var e :- NewEvent(w, h.draft, h.history, a.status, a.reason, a.receipts, at, REVIEWED);
      Ok(c.(hypotheses := c.hypotheses[k.value := h.(history := h.history + [e], status := a.status)]))
  }

  /** `reopenHypothesis`. */
  function Reopen(w: World, c: Campaign, id: string, reason: string, at: string): Result<Campaign> {
    var k := Find(c.hypotheses, id);
    if w.blank(reason) || !Accepted(w, c) || k.None? then Err(INVALID_ARGUMENT)
    else
      var h := c.hypotheses[k.value];
      var e :- NewEvent(w, h.draft, h.history, UNTESTED, reason, [], at, REOPENED);
      Ok(c.(hypotheses := c.hypotheses[k.value := h.(history := h.history + [e], status := UNTESTED,
        evidenceSince := at)]))
  }

  /** Receipts are only ever added. */
  function AddCapture(w: World, c: Campaign, id: string): Result<Campaign> {
    if !Accepted(w, c) || id in c.captures then Err(INVALID_ARGUMENT) else Ok(c.(captures := c.captures + [id]))
  }

  /** What assessments are made of: a reason, and receipts of the campaign. */
  predicate AssessmentOk(w: World, c: Campaign, a: Assessment) {
    !w.blank(a.reason) && forall id :: id in a.receipts ==> id in c.captures
  }

  // ---------------------------------------------------------------- closure

  /** A history extended by `event` is accepted again, with the status and the reset time that go with it. */
  lemma ExtendedIsOk(w: World, h: Hypothesis, captures: seq<string>, e: HistoryEvent, h': Hypothesis)
    requires HypothesisOk(w, h, captures)
    requires NewEvent(w, h.draft, h.history, e.body.status, e.body.reason, e.body.receipts, e.body.at, e.body.kind) ==
      Ok(e)
    requires e.body.kind != CREATED && !w.blank(e.body.reason) && forall id :: id in e.body.receipts ==> id in captures
    requires h' == h.(history := h.history + [e], status := e.body.status,
      evidenceSince := if e.body.kind == REOPENED then e.body.at else h.evidenceSince)
    ensures HypothesisOk(w, h', captures)
  {
    var n := |h.history|;
    assert h'.history[..n] == h.history;
    forall i | 0 <= i < |h'.history| ensures SchemaOk(w, h'.history[i]) && EventOk(w, h', captures, i) {
      if i < n {
        assert h'.history[i] == h.history[i];
        assert SchemaOk(w, h.history[i]) && EventOk(w, h, captures, i);
      }
    }
  }

  lemma CreatedIsOk(w: World, draft: Draft, at: string, reason: string, captures: seq<string>)
    requires CreateHypothesis(w, draft, at, reason).Ok? && !w.blank(reason)
    ensures HypothesisOk(w, CreateHypothesis(w, draft, at, reason).value, captures)
  {
  }

  lemma ReplacedIsAccepted(w: World, c: Campaign, k: nat, h: Hypothesis)
    requires Accepted(w, c) && k < |c.hypotheses| && h.draft == c.hypotheses[k].draft && HypothesisOk(w, h, c.captures)
    ensures Accepted(w, c.(hypotheses := c.hypotheses[k := h]))
  {
    hide HypothesisOk;
    var more := c.hypotheses[k := h];
    forall g | g in more ensures HypothesisOk(w, g, c.captures) {
      assert g == h || g in c.hypotheses;
    }
    assert forall i :: 0 <= i < |more| ==> more[i].draft.id == c.hypotheses[i].draft.id;
  }

  lemma ReviewIsAccepted(w: World, c: Campaign, id: string, a: Assessment, at: string)
    requires Review(w, c, id, a, at).Ok? && AssessmentOk(w, c, a)
    ensures Accepted(w, Review(w, c, id, a, at).value)
  {
    var k := Find(c.hypotheses, id).value;
    var h := c.hypotheses[k];
    assert h in c.hypotheses;
    var e := NewEvent(w, h.draft, h.history, a.status, a.reason, a.receipts, at, REVIEWED).value;
    var h' := h.(history := h.history + [e], status := a.status);
    ExtendedIsOk(w, h, c.captures, e, h');
    hide HypothesisOk, Accepted;
    ReplacedIsAccepted(w, c, k, h');
  }

  lemma ReopenIsAccepted(w: World, c: Campaign, id: string, reason: string, at: string)
    requires Reopen(w, c, id, reason, at).Ok?
    ensures Accepted(w, Reopen(w, c, id, reason, at).value)
  {
    var k := Find(c.hypotheses, id).value;
    var h := c.hypotheses[k];
    assert h in c.hypotheses;
    var e := NewEvent(w, h.draft, h.history, UNTESTED, reason, [], at, REOPENED).value;
    var h' := h.(history := h.history + [e], status := UNTESTED, evidenceSince := at);
    ExtendedIsOk(w, h, c.captures, e, h');
    hide HypothesisOk, Accepted;
    ReplacedIsAccepted(w, c, k, h');
  }

  lemma AddCaptureIsAccepted(w: World, c: Campaign, id: string)
    requires AddCapture(w, c, id).Ok?
    ensures Accepted(w, AddCapture(w, c, id).value)
  {
    var c' := AddCapture(w, c, id).value;
    forall h | h in c'.hypotheses ensures HypothesisOk(w, h, c'.captures) {
      assert HypothesisOk(w, h, c.captures);
      forall i | 0 <= i < |h.history| ensures EventOk(w, h, c'.captures, i) {
        assert EventOk(w, h, c.captures, i);
      }
    }
  }

  lemma {:induction false} ImportIsAccepted(w: World, drafts: seq<Draft>, at: string)
    requires !w.blank(NEW_REASON) && Import(w, drafts, at).Ok?
    requires forall i, j :: 0 <= i < j < |drafts| ==> drafts[i].id != drafts[j].id
    ensures Accepted(w, Campaign(Import(w, drafts, at).value, []))
    ensures |Import(w, drafts, at).value| == |drafts| && forall i :: 0 <= i < |drafts| ==>
      Import(w, drafts, at).value[i].draft == drafts[i]
  {
    if drafts != [] {
      ImportIsAccepted(w, drafts[1..], at);
      CreatedIsOk(w, drafts[0], at, NEW_REASON, []);
      hide HypothesisOk, CreateHypothesis;
      var h := CreateHypothesis(w, drafts[0], at, NEW_REASON).value;
      assert h.draft == drafts[0] by { CreatedDraft(w, drafts[0], at, NEW_REASON); }
    }
  }

  lemma CreatedDraft(w: World, draft: Draft, at: string, reason: string)
    requires CreateHypothesis(w, draft, at, reason).Ok?
    ensures CreateHypothesis(w, draft, at, reason).value.draft == draft
  {
  }

  // ---------------------------------------------------------------- runs

  datatype Step =
    | ReviewStep(id: string, a: Assessment, at: string)
    | ReopenStep(id: string, reason: string, at: string)
    | CaptureStep(capture: string)

  ghost predicate Steps(w: World, c: Campaign, step: Step, c': Campaign) {
    match step
    case ReviewStep(id, a, at) => AssessmentOk(w, c, a) && Review(w, c, id, a, at) == Ok(c')
    case ReopenStep(id, reason, at) => Reopen(w, c, id, reason, at) == Ok(c')
    case CaptureStep(capture) => AddCapture(w, c, capture) == Ok(c')
  }

  /** A campaign imported once and changed by any sequence of operations that succeeded. */
  ghost predicate Run(w: World, drafts: seq<Draft>, at: string, states: seq<Campaign>, steps: seq<Step>) {
    && |states| == |steps| + 1
    && !w.blank(NEW_REASON)
    && (forall i, j :: 0 <= i < j < |drafts| ==> drafts[i].id != drafts[j].id)
    && Import(w, drafts, at) == Ok(states[0].hypotheses) && states[0].captures == []
    && forall i :: 0 <= i < |steps| ==> Steps(w, states[i], steps[i], states[i + 1])
  }

  /** Every campaign reached by import, review, reopening and new receipts is accepted again. */
  lemma {:induction false} EveryRunIsAccepted(w: World, drafts: seq<Draft>, at: string, states: seq<Campaign>,
      steps: seq<Step>, n: nat)
    requires Run(w, drafts, at, states, steps) && n < |states|
    ensures Accepted(w, states[n])
  {
    hide Accepted, Review, Reopen, AddCapture;
    if n == 0 {
      ImportIsAccepted(w, drafts, at);
      assert states[0] == Campaign(states[0].hypotheses, []);
    } else {
      var c, step, c' := states[n - 1], steps[n - 1], states[n];
      assert Steps(w, c, step, states[n - 1 + 1]);
      match step {
        case ReviewStep(id, a, time) => ReviewIsAccepted(w, c, id, a, time);
        case ReopenStep(id, reason, time) => ReopenIsAccepted(w, c, id, reason, time);
        case CaptureStep(capture) => AddCaptureIsAccepted(w, c, capture);
      }
    }
  }

  /** Histories only grow, and definitions never change. */
  lemma {:induction false} HistoriesOnlyGrow(w: World, drafts: seq<Draft>, at: string, states: seq<Campaign>,
      steps: seq<Step>, i: nat, j: nat, k: nat)
    requires Run(w, drafts, at, states, steps) && i <= j < |states| && k < |states[i].hypotheses|
    ensures k < |states[j].hypotheses| && states[j].hypotheses[k].draft == states[i].hypotheses[k].draft
    ensures states[i].hypotheses[k].history <= states[j].hypotheses[k].history
    decreases j
  {
    hide Accepted, NewEvent;
    if i < j {
      HistoriesOnlyGrow(w, drafts, at, states, steps, i, j - 1, k);
      assert Steps(w, states[j - 1], steps[j - 1], states[j - 1 + 1]);
    }
  }

  // ---------------------------------------------------------------- what the chain is for

  /** Two different event bodies with one digest. */
  predicate Collide(w: World, x: Body, y: Body) {
    x != y && w.digestBody(x) == w.digestBody(y)
  }

  /** No event body of one history collides with one of the other, and neither do the definitions. */
  ghost predicate NoCollision(w: World, a: Hypothesis, b: Hypothesis) {
    && (forall i, j :: 0 <= i < |a.history| && 0 <= j < |b.history| ==>
      !Collide(w, a.history[i].body, b.history[j].body))
    && (w.digestDraft(a.draft) == w.digestDraft(b.draft) ==> a.draft == b.draft)
  }

  /** Two accepted hypotheses whose histories end in the same hash are the same, or they exhibit a digest collision. */
  lemma LastHashFixesHistory(w: World, a: Hypothesis, b: Hypothesis, captures: seq<string>, others: seq<string>)
    requires HypothesisOk(w, a, captures) && HypothesisOk(w, b, others)
    requires a.history[|a.history| - 1].hash == b.history[|b.history| - 1].hash
    ensures a == b || !NoCollision(w, a, b)
  {
    if NoCollision(w, a, b) {
      assert EventOk(w, a, captures, |a.history| - 1) && EventOk(w, b, others, |b.history| - 1);
      assert !Collide(w, a.history[|a.history| - 1].body, b.history[|b.history| - 1].body);
      assert |a.history| == |b.history|;
      SamePast(w, a, b, captures, others, |a.history| - 1);
      assert a.draft == b.draft;
      assert a.history == b.history;
    }
  }

  lemma {:induction false} SamePast(w: World, a: Hypothesis, b: Hypothesis, captures: seq<string>, others: seq<string>,
      n: nat)
    requires NoCollision(w, a, b) && HypothesisOk(w, a, captures) && HypothesisOk(w, b, others)
    requires n < |a.history| && n < |b.history| && a.history[n].hash == b.history[n].hash
    ensures forall i :: 0 <= i <= n ==> a.history[i] == b.history[i]
  {
    assert EventOk(w, a, captures, n) && EventOk(w, b, others, n);
    assert !Collide(w, a.history[n].body, b.history[n].body);
    assert a.history[n] == b.history[n];
    hide Earlier;
    if n > 0 { SamePast(w, a, b, captures, others, n - 1); }
  }
}
