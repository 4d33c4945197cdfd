/**
 * What the campaign operations record, and what an accepted history says
 * (shared/web-audit/src/evidence.ts:27-40 and 116-132, shared/web-audit/src/validation.ts:162-172).
 */
module CampaignMeaning {
  import opened Bridge
  import opened CampaignHistory

  // ---------------------------------------------------------------- accepted histories

  /** The event's moment, when it is a date. */
  predicate NotBefore(w: World, a: string, b: string) {
    w.parse(a).Some? && w.parse(b).Some? && w.parse(b).value <= w.parse(a).value
  }

  /**
   * Every event is numbered, dated, gives a reason, names this definition, its predecessor and known receipts, and is
   * hashed.
   */
  predicate WellKeptEvent(w: World, h: Hypothesis, captures: seq<string>, i: nat)
    requires i < |h.history|
  {
    var b := h.history[i].body;
    && b.sequence == i && w.parse(b.at).Some? && !w.blank(b.reason) && b.definition == w.digestDraft(h.draft)
    && h.history[i].hash == w.digestBody(b)
    && b.previous == (if i == 0 then None else Some(h.history[i - 1].hash))
    && (forall id :: id in b.receipts ==> id in captures)
  }

  predicate WellKept(w: World, h: Hypothesis, captures: seq<string>) {
    forall i :: 0 <= i < |h.history| ==> WellKeptEvent(w, h, captures, i)
  }

  /** Time never runs backwards, between any two events. */
  ghost predicate InTimeOrder(w: World, h: Hypothesis) {
    forall i, j :: 0 <= i < j < |h.history| ==> NotBefore(w, h.history[j].body.at, h.history[i].body.at)
  }

  /**
   * The hypothesis began untested, has the status of its last event, and its evidence counts from its last beginning.
   */
  ghost predicate TellsItsState(h: Hypothesis) {
    && h.history != []
    && h.history[0].body.kind == CREATED && h.history[0].body.status == UNTESTED
    && (forall i :: 1 <= i < |h.history| ==> h.history[i].body.kind != CREATED)
    && h.history[|h.history| - 1].body.status == h.status
    && exists k :: 0 <= k < |h.history| && BeginsAt(h, k)
  }

  /** Evidence counts from event k: the creation or a reopening, after which there are reviews only. */
  ghost predicate BeginsAt(h: Hypothesis, k: nat)
    requires k < |h.history|
  {
    && h.history[k].body.kind != REVIEWED && h.history[k].body.at == h.evidenceSince
    && forall i :: k < i < |h.history| ==> h.history[i].body.kind == REVIEWED
  }

  lemma {:induction false} LastResetMeans(history: seq<HistoryEvent>, at: string)
    ensures LastReset(history) == Some(at) <==>
      exists k :: 0 <= k < |history| && history[k].body.kind != REVIEWED && history[k].body.at == at
        && forall i :: k < i < |history| ==> history[i].body.kind == REVIEWED
  {
    if history != [] {
      var n := |history| - 1;
      var before := history[..n];
      LastResetMeans(before, at);
      assert forall i :: 0 <= i < n ==> before[i] == history[i];
      if Resets(history[n]) {
        assert history[n].body.kind != REVIEWED;
      } else {
        assert history[n].body.kind == REVIEWED by { OnlyReviews(history[n]); }
      }
    }
  }

  lemma OnlyReviews(e: HistoryEvent)
    requires !Resets(e)
    ensures e.body.kind == REVIEWED
  {
  }

  lemma {:induction false} TimeOrderFromSteps(w: World, h: Hypothesis, i: nat, j: nat)
    requires i < j < |h.history| && (forall k :: 0 <= k < |h.history| ==> w.parse(h.history[k].body.at).Some?)
    requires forall k :: 0 < k < |h.history| ==> !Earlier(w, h.history[k].body.at, h.history[k - 1].body.at)
    ensures NotBefore(w, h.history[j].body.at, h.history[i].body.at)
    decreases j
  {
    assert !Earlier(w, h.history[j].body.at, h.history[j - 1].body.at);
    if i < j - 1 { TimeOrderFromSteps(w, h, i, j - 1); }
  }

  /**
   * `parseCampaign` accepts a hypothesis exactly if its history is well kept, in order of time, and tells its state.
   */
  lemma HypothesisOkMeans(w: World, h: Hypothesis, captures: seq<string>)
    ensures HypothesisOk(w, h, captures) <==>
      w.validDraft(h.draft) && WellKept(w, h, captures) && InTimeOrder(w, h) && TellsItsState(h)
  {
    LastResetMeans(h.history, h.evidenceSince);
    if HypothesisOk(w, h, captures) {
      OkMeans(w, h, captures);
    }
    if w.validDraft(h.draft) && WellKept(w, h, captures) && InTimeOrder(w, h) && TellsItsState(h) {
      MeansOk(w, h, captures);
    }
  }

  /** What the loop checks of one event. */
  lemma EventMeans(w: World, h: Hypothesis, captures: seq<string>, i: nat)
    requires i < |h.history|
    ensures SchemaOk(w, h.history[i]) && EventOk(w, h, captures, i) <==>
      && WellKeptEvent(w, h, captures, i)
      && (i == 0 ==> h.history[i].body.kind == CREATED && h.history[i].body.status == UNTESTED)
      && (i > 0 ==> h.history[i].body.kind != CREATED && !Earlier(w, h.history[i].body.at, h.history[i - 1].body.at))
  {
  }

  lemma OkEvents(w: World, h: Hypothesis, captures: seq<string>, i: nat)
    requires HypothesisOk(w, h, captures) && i < |h.history|
    ensures SchemaOk(w, h.history[i]) && EventOk(w, h, captures, i)
    ensures w.parse(h.history[i].body.at).Some?
  {
  }

  lemma OkInTimeOrder(w: World, h: Hypothesis, captures: seq<string>)
    requires HypothesisOk(w, h, captures)
    ensures InTimeOrder(w, h)
  {
    hide HypothesisOk, SchemaOk, EventOk, WellKeptEvent, Earlier, NotBefore;
    forall i | 0 <= i < |h.history|
      ensures w.parse(h.history[i].body.at).Some?
      ensures i > 0 ==> !Earlier(w, h.history[i].body.at, h.history[i - 1].body.at)
    {
      OkEvents(w, h, captures, i);
      EventMeans(w, h, captures, i);
    }
    forall i, j | 0 <= i < j < |h.history| ensures NotBefore(w, h.history[j].body.at, h.history[i].body.at) {
      TimeOrderFromSteps(w, h, i, j);
    }
  }

  lemma OkEnds(w: World, h: Hypothesis, captures: seq<string>)
    requires HypothesisOk(w, h, captures)
    ensures h.history != [] && h.history[|h.history| - 1].body.status == h.status
    ensures LastReset(h.history) == Some(h.evidenceSince)
  {
    hide SchemaOk, EventOk, LastReset;
  }

  lemma OkMeans(w: World, h: Hypothesis, captures: seq<string>)
    requires HypothesisOk(w, h, captures)
    ensures WellKept(w, h, captures) && InTimeOrder(w, h) && TellsItsState(h)
  {
    hide HypothesisOk, SchemaOk, EventOk, LastReset, WellKeptEvent, InTimeOrder;
    forall i | 0 <= i < |h.history|
      ensures WellKeptEvent(w, h, captures, i)
      ensures i == 0 ==> h.history[i].body.kind == CREATED && h.history[i].body.status == UNTESTED
      ensures i > 0 ==> h.history[i].body.kind != CREATED
    {
      OkEvents(w, h, captures, i);
      EventMeans(w, h, captures, i);
    }
    OkInTimeOrder(w, h, captures);
    OkEnds(w, h, captures);
    LastResetMeans(h.history, h.evidenceSince);
    var k :| 0 <= k < |h.history| && h.history[k].body.kind != REVIEWED && h.history[k].body.at == h.evidenceSince
      && forall i :: k < i < |h.history| ==> h.history[i].body.kind == REVIEWED;
    assert BeginsAt(h, k);
  }

  lemma NotEarlier(w: World, h: Hypothesis, i: nat)
    requires InTimeOrder(w, h) && 0 < i < |h.history|
    ensures !Earlier(w, h.history[i].body.at, h.history[i - 1].body.at)
  {
    assert NotBefore(w, h.history[i].body.at, h.history[i - 1].body.at);
  }

  lemma MeansOk(w: World, h: Hypothesis, captures: seq<string>)
    requires w.validDraft(h.draft) && WellKept(w, h, captures) && InTimeOrder(w, h) && TellsItsState(h)
    ensures HypothesisOk(w, h, captures)
  {
    hide SchemaOk, EventOk, LastReset, WellKeptEvent, InTimeOrder, Earlier;
    var k :| 0 <= k < |h.history| && BeginsAt(h, k);
    LastResetMeans(h.history, h.evidenceSince);
    forall i | 0 <= i < |h.history| ensures SchemaOk(w, h.history[i]) && EventOk(w, h, captures, i) {
      if i > 0 { NotEarlier(w, h, i); }
      EventMeans(w, h, captures, i);
    }
  }

  // ---------------------------------------------------------------- what the operations record

  /** The event that is appended to a history: numbered, dated, chained to its last event, and hashed. */
  function Appended(w: World, h: Hypothesis, kind: EventKind, status: Status, reason: string, receipts: seq<string>,
      at: string): HistoryEvent
    requires h.history != []
  {
    var last := h.history[|h.history| - 1];
    var body := Body(|h.history|, at, kind, status, reason, receipts, w.digestDraft(h.draft), Some(last.hash));
    HistoryEvent(body, w.digestBody(body))
  }

  /** The moment is a date, and not before the last event. */
  predicate InTime(w: World, h: Hypothesis, at: string)
    requires h.history != []
  {
    w.parse(at).Some? && !Earlier(w, at, h.history[|h.history| - 1].body.at)
  }

  /** Hypothesis `k` of the campaign goes by this id. */
  ghost predicate Named(c: Campaign, k: nat, id: string) {
    k < |c.hypotheses| && c.hypotheses[k].draft.id == id
  }

  lemma OneGoesByTheId(w: World, c: Campaign, k: nat, id: string)
    requires Accepted(w, c) && Named(c, k, id)
    ensures Find(c.hypotheses, id) == Some(k) && c.hypotheses[k].history != []
  {
    hide HypothesisOk;
    var r := Find(c.hypotheses, id);
    assert c.hypotheses[k] in c.hypotheses;
    HistoryThere(w, c.hypotheses[k], c.captures);
  }

  lemma HistoryThere(w: World, h: Hypothesis, captures: seq<string>)
    requires HypothesisOk(w, h, captures)
    ensures h.history != []
  {
  }

  /** A review goes through exactly in time; it appends one review with the assessment, and changes the status alone. */
  lemma ReviewRecords(w: World, c: Campaign, k: nat, id: string, a: Assessment, at: string)
    requires Accepted(w, c) && Named(c, k, id)
    ensures c.hypotheses[k].history != []
    ensures Review(w, c, id, a, at).Ok? <==> InTime(w, c.hypotheses[k], at)
    ensures Review(w, c, id, a, at).Ok? ==>
      var h := c.hypotheses[k];
      var e := Appended(w, h, REVIEWED, a.status, a.reason, a.receipts, at);
      Review(w, c, id, a, at).value
        == c.(hypotheses := c.hypotheses[k := Hypothesis(h.draft, a.status, h.evidenceSince, h.history + [e])])
  {
    OneGoesByTheId(w, c, k, id);
    hide Accepted;
  }

  /** A reopening needs a reason; it appends one event without receipts, and evidence counts from then on. */
  lemma ReopenRecords(w: World, c: Campaign, k: nat, id: string, reason: string, at: string)
    requires Accepted(w, c) && Named(c, k, id)
    ensures c.hypotheses[k].history != []
    ensures Reopen(w, c, id, reason, at).Ok? <==> !w.blank(reason) && InTime(w, c.hypotheses[k], at)
    ensures Reopen(w, c, id, reason, at).Ok? ==>
      var h := c.hypotheses[k];
      var e := Appended(w, h, REOPENED, UNTESTED, reason, [], at);
      Reopen(w, c, id, reason, at).value
        == c.(hypotheses := c.hypotheses[k := Hypothesis(h.draft, UNTESTED, at, h.history + [e])])
  {
    OneGoesByTheId(w, c, k, id);
    hide Accepted;
  }

  /** A receipt is added once, behind the others, and nothing else changes. */
  lemma CaptureRecords(w: World, c: Campaign, id: string)
    ensures AddCapture(w, c, id).Ok? <==> Accepted(w, c) && id !in c.captures
    ensures AddCapture(w, c, id).Ok? ==> AddCapture(w, c, id).value == Campaign(c.hypotheses, c.captures + [id])
  {
    hide Accepted;
  }

  /** What is not accepted, or not there, cannot be reviewed or reopened. */
  lemma StrangersAreRefused(w: World, c: Campaign, id: string, a: Assessment, reason: string, at: string)
    requires !Accepted(w, c) || forall k: nat :: !Named(c, k, id)
    ensures Review(w, c, id, a, at) == Err(INVALID_ARGUMENT) && Reopen(w, c, id, reason, at) == Err(INVALID_ARGUMENT)
  {
    hide Accepted;
    var r := Find(c.hypotheses, id);
    assert r.Some? ==> Named(c, r.value, id);
  }

  /** An imported hypothesis has one event, its creation at that moment, and no evidence. */
  lemma {:induction false} ImportRecords(w: World, drafts: seq<Draft>, at: string)
    ensures Import(w, drafts, at).Ok? <==> (drafts != [] ==> w.parse(at).Some?) && forall d :: d in drafts ==>
      w.validDraft(d)
    ensures Import(w, drafts, at).Ok? ==>
      var all := Import(w, drafts, at).value;
      |all| == |drafts| && forall i :: 0 <= i < |drafts| ==>
        var body := Body(0, at, CREATED, UNTESTED, NEW_REASON, [], w.digestDraft(drafts[i]), None);
        all[i] == Hypothesis(drafts[i], UNTESTED, at, [HistoryEvent(body, w.digestBody(body))])
  {
    if drafts != [] { ImportRecords(w, drafts[1..], at); }
  }
}
