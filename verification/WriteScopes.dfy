/** Write scopes: lists of glob patterns (shared/protocol/src/scope.ts). */
module WriteScopes {
  import opened Bridge
  import opened Scope
  import opened Globs
  import GlobPaths
  import Text

  /** The reserved read-only namespace. */
  const NO_WRITE := "(no-write)"

  function IsReadOnlyPattern(pattern: string): Result<bool> {
    var path :- Normalized(pattern);
    Ok(path == NO_WRITE || (|path| > |NO_WRITE| && path[..|NO_WRITE| + 1] == NO_WRITE + "/"))
  }

  function EveryReadOnly(paths: seq<string>): Result<bool> {
    if paths == [] then Ok(true)
    else
      var r :- IsReadOnlyPattern(paths[0]);
      if !r then Ok(false) else EveryReadOnly(paths[1..])
  }

  function IsReadOnlyScope(paths: seq<string>): Result<bool> {
    if paths == [] then Ok(false) else EveryReadOnly(paths)
  }

  function SomeMatches(paths: seq<string>, path: string): Result<bool> {
    if paths == [] then Ok(false)
    else
      var m :- MatchesGlob(path, paths[0]);
      if m then Ok(true) else SomeMatches(paths[1..], path)
  }

  /** `scopeAllows`: is `path` writable under the scope? */
  function ScopeAllows(paths: seq<string>, path: string): Result<bool> {
    var readOnly :- IsReadOnlyScope(paths);
    if readOnly then Ok(false) else SomeMatches(paths, path)
  }

  /** The only code that path and pattern checks throw. */
  lemma ScopeAllowsCodes(paths: seq<string>, path: string)
    ensures ScopeAllows(paths, path).Err? ==> ScopeAllows(paths, path).code == INVALID_ARGUMENT
  {
    hide Normalized;
    EveryReadOnlyCodes(paths);
    SomeMatchesCodes(paths, path);
  }

  lemma NormalizedCodes(p: string)
    ensures Normalized(p).Err? ==> Normalized(p).code == INVALID_ARGUMENT
  {
  }

  lemma {:induction false} EveryReadOnlyCodes(paths: seq<string>)
    ensures EveryReadOnly(paths).Err? ==> EveryReadOnly(paths).code == INVALID_ARGUMENT
  {
    hide Normalized;
    if paths != [] {
      NormalizedCodes(paths[0]);
      EveryReadOnlyCodes(paths[1..]);
    }
  }

  lemma {:induction false} SomeMatchesCodes(paths: seq<string>, path: string)
    ensures SomeMatches(paths, path).Err? ==> SomeMatches(paths, path).code == INVALID_ARGUMENT
  {
    hide Normalized;
    NormalizedCodes(path);
    if paths != [] {
      NormalizedCodes(paths[0]);
      SomeMatchesCodes(paths[1..], path);
    }
  }

  function PairsOfOne(pa: string, bs: seq<string>): Result<seq<(string, string)>> {
    if bs == [] then Ok([])
    else
      var overlap :- GlobsOverlap(pa, bs[0]);
      var rest :- PairsOfOne(pa, bs[1..]);
      Ok((if overlap then [(pa, bs[0])] else []) + rest)
  }

  function Pairs(as': seq<string>, bs: seq<string>): Result<seq<(string, string)>> {
    if as' == [] then Ok([])
    else
      var first :- PairsOfOne(as'[0], bs);
      var rest :- Pairs(as'[1..], bs);
      Ok(first + rest)
  }

  /** `conflictingPairs`: every overlapping pattern pair, none if either scope is read-only. */
  function ConflictingPairs(as': seq<string>, bs: seq<string>): Result<seq<(string, string)>> {
    var readOnlyA :- IsReadOnlyScope(as');
    if readOnlyA then Ok([])
    else
      var readOnlyB :- IsReadOnlyScope(bs);
      if readOnlyB then Ok([]) else Pairs(as', bs)
  }

  /** A scope as it is stored: its patterns are in normal form. */
  ghost predicate Stored(paths: seq<string>) {
    forall p :: p in paths ==> Normalized(p) == Ok(p)
  }

  /** Some pattern of one scope overlaps some pattern of the other. */
  ghost predicate SomeOverlap(as': seq<string>, bs: seq<string>) {
    exists i, j :: 0 <= i < |as'| && 0 <= j < |bs| && PatternsOverlap(as'[i], bs[j])
  }

  /** Conflict between stored scopes, as the lease manager sees it. */
  predicate Conflict(as': seq<string>, bs: seq<string>) {
    ConflictingPairs(as', bs) != Ok([])
  }

  lemma {:induction false} EveryReadOnlyOk(paths: seq<string>)
    requires Stored(paths)
    ensures EveryReadOnly(paths).Ok?
  {
    hide Normalized;
    if paths != [] {
      assert paths[0] in paths;
      assert forall p :: p in paths[1..] ==> p in paths;
      EveryReadOnlyOk(paths[1..]);
    }
  }

  lemma {:induction false} PairsOfOneMeaning(pa: string, bs: seq<string>)
    requires Normalized(pa) == Ok(pa) && Stored(bs)
    ensures PairsOfOne(pa, bs).Ok?
    ensures PairsOfOne(pa, bs).value != [] <==> exists j :: 0 <= j < |bs| && PatternsOverlap(pa, bs[j])
  {
    hide PatternsOverlap, Normalized;
    if bs != [] {
      assert bs[0] in bs;
      assert forall p :: p in bs[1..] ==> p in bs;
      PairsOfOneMeaning(pa, bs[1..]);
      assert forall j :: 1 <= j < |bs| ==> bs[j] == bs[1..][j - 1];
      if PairsOfOne(pa, bs[1..]).value != [] {
        var j :| 0 <= j < |bs[1..]| && PatternsOverlap(pa, bs[1..][j]);
        assert PatternsOverlap(pa, bs[j + 1]);
      }
    }
  }

  lemma {:induction false} PairsMeaning(as': seq<string>, bs: seq<string>)
    requires Stored(as') && Stored(bs)
    ensures Pairs(as', bs).Ok?
    ensures Pairs(as', bs).value != [] <==> SomeOverlap(as', bs)
  {
    hide PatternsOverlap, Normalized, PairsOfOne;
    if as' != [] {
      assert as'[0] in as';
      assert forall p :: p in as'[1..] ==> p in as';
      PairsOfOneMeaning(as'[0], bs);
      PairsMeaning(as'[1..], bs);
      assert forall i :: 1 <= i < |as'| ==> as'[i] == as'[1..][i - 1];
      if SomeOverlap(as'[1..], bs) {
        var i, j :| 0 <= i < |as'[1..]| && 0 <= j < |bs| && PatternsOverlap(as'[1..][i], bs[j]);
        assert PatternsOverlap(as'[i + 1], bs[j]);
      }
    }
  }

  /** Stored scopes never make the comparison throw, and conflict means overlap of two writable scopes. */
  lemma ConflictMeaning(as': seq<string>, bs: seq<string>)
    requires Stored(as') && Stored(bs)
    ensures IsReadOnlyScope(as').Ok? && IsReadOnlyScope(bs).Ok? && ConflictingPairs(as', bs).Ok?
    ensures Conflict(as', bs) <==>
      !IsReadOnlyScope(as').value && !IsReadOnlyScope(bs).value && SomeOverlap(as', bs)
  {
    EveryReadOnlyOk(as');
    EveryReadOnlyOk(bs);
    PairsMeaning(as', bs);
  }

  lemma ConflictSymmetric(as': seq<string>, bs: seq<string>)
    requires Stored(as') && Stored(bs)
    ensures Conflict(as', bs) == Conflict(bs, as')
  {
    ConflictMeaning(as', bs);
    ConflictMeaning(bs, as');
    forall i, j | 0 <= i < |as'| && 0 <= j < |bs|
      ensures PatternsOverlap(as'[i], bs[j]) == PatternsOverlap(bs[j], as'[i])
    {
      OverlapSymmetric(as'[i], bs[j]);
      assert as'[i] in as' && bs[j] in bs;
    }
    if SomeOverlap(as', bs) {
      var i, j :| 0 <= i < |as'| && 0 <= j < |bs| && PatternsOverlap(as'[i], bs[j]);
      assert PatternsOverlap(bs[j], as'[i]);
    }
    if SomeOverlap(bs, as') {
      var j, i :| 0 <= j < |bs| && 0 <= i < |as'| && PatternsOverlap(bs[j], as'[i]);
      assert PatternsOverlap(as'[i], bs[j]);
    }
  }

  /** The pattern under which a scope allows a path. */
  lemma {:induction false} AllowingPattern(paths: seq<string>, path: string) returns (i: nat)
    requires SomeMatches(paths, path) == Ok(true)
    ensures i < |paths| && MatchesGlob(path, paths[i]) == Ok(true)
  {
    hide MatchesGlob;
    if MatchesGlob(path, paths[0]) == Ok(true) {
      i := 0;
    } else {
      var k := AllowingPattern(paths[1..], path);
      i := k + 1;
    }
  }

  /** Every pattern meets the exact condition of the overlap test. */
  ghost predicate Sound(paths: seq<string>) {
    forall p :: p in paths ==> GlobPaths.SafeOnPaths(p)
  }

  /** Two scopes that both allow one path conflict. */
  lemma SharedPathConflicts(as': seq<string>, bs: seq<string>, path: string)
    requires Stored(as') && Stored(bs) && Sound(as') && Sound(bs)
    requires ScopeAllows(as', path) == Ok(true) && ScopeAllows(bs, path) == Ok(true)
    ensures Conflict(as', bs)
  {
    var i := AllowingPattern(as', path);
    var j := AllowingPattern(bs, path);
    assert as'[i] in as' && bs[j] in bs;
    hide Normalized, Conflict, GlobsOverlap, MatchesGlob;
    GlobPaths.OverlapSound(as'[i], bs[j], path);
    ConflictMeaning(as', bs);
  }

  // ---------------------------------------------------------------- the loops of the program

  type PairList = seq<(string, string)>

  function Appended(done: PairList, rest: Result<PairList>): Result<PairList> {
    if rest.Ok? then Ok(done + rest.value) else rest
  }

  lemma PairsOfOneStep(done: PairList, pa: string, bs: seq<string>, j: nat)
    requires j < |bs|
    ensures GlobsOverlap(pa, bs[j]).Err? ==> PairsOfOne(pa, bs[j..]) == Err(GlobsOverlap(pa, bs[j]).code)
    ensures GlobsOverlap(pa, bs[j]).Ok? ==>
      Appended(done, PairsOfOne(pa, bs[j..])) ==
      Appended(if GlobsOverlap(pa, bs[j]).value then done + [(pa, bs[j])] else done, PairsOfOne(pa, bs[j + 1..]))
  {
    hide GlobsOverlap;
    assert bs[j..][1..] == bs[j + 1..];
    var rest := PairsOfOne(pa, bs[j + 1..]);
    if GlobsOverlap(pa, bs[j]).Ok? && rest.Ok? {
      assert done + ([(pa, bs[j])] + rest.value) == done + [(pa, bs[j])] + rest.value;
      assert [] + rest.value == rest.value;
    }
  }

  lemma PairsStep(done: PairList, as': seq<string>, i: nat, bs: seq<string>)
    requires i < |as'|
    ensures var one := PairsOfOne(as'[i], bs);
      if one.Err? then Pairs(as'[i..], bs) == one
      else Appended(done, Pairs(as'[i..], bs)) == Appended(done + one.value, Pairs(as'[i + 1..], bs))
  {
    hide PairsOfOne;
    assert as'[i..][1..] == as'[i + 1..];
    var one, rest := PairsOfOne(as'[i], bs), Pairs(as'[i + 1..], bs);
    if one.Ok? && rest.Ok? {
      assert done + (one.value + rest.value) == done + one.value + rest.value;
    }
  }

  /** The nested loops of `conflictingPairs`. */
  method ListConflictingPairs(as': seq<string>, bs: seq<string>) returns (r: Result<PairList>)
    ensures r == ConflictingPairs(as', bs)
  {
    hide GlobsOverlap, IsReadOnlyScope;
    var readOnlyA := IsReadOnlyScope(as');
    if readOnlyA.Err? { return Err(readOnlyA.code); }
    if readOnlyA.value { return Ok([]); }
    var readOnlyB := IsReadOnlyScope(bs);
    if readOnlyB.Err? { return Err(readOnlyB.code); }
    if readOnlyB.value { return Ok([]); }
    var pairs: PairList := [];
    var i := 0;
    assert as'[0..] == as';
    assert Pairs(as', bs).Ok? ==> pairs + Pairs(as', bs).value == Pairs(as', bs).value;
    while i < |as'|
      invariant 0 <= i <= |as'|
      invariant Pairs(as', bs) == Appended(pairs, Pairs(as'[i..], bs))
    {
      ghost var outer := pairs;
      PairsStep(outer, as', i, bs);
      var j := 0;
      assert bs[0..] == bs;
      while j < |bs|
        invariant 0 <= j <= |bs|
        invariant Appended(outer, PairsOfOne(as'[i], bs)) == Appended(pairs, PairsOfOne(as'[i], bs[j..]))
      {
        var overlap := GlobsOverlap(as'[i], bs[j]);
        PairsOfOneStep(pairs, as'[i], bs, j);
        if overlap.Err? { return Err(overlap.code); }
        if overlap.value { pairs := pairs + [(as'[i], bs[j])]; }
        j := j + 1;
      }
      assert PairsOfOne(as'[i], bs[j..]) == Ok([]);
      assert pairs + [] == pairs;
      i := i + 1;
    }
    assert Pairs(as'[i..], bs) == Ok([]);
    assert pairs + [] == pairs;
    return Ok(pairs);
  }

  predicate ReadOnly(p: string) {
    IsReadOnlyPattern(p) == Ok(true)
  }

  predicate Writable(p: string) {
    IsReadOnlyPattern(p) == Ok(false)
  }

  lemma NormalizingKeepsKind(p: string)
    requires Normalized(p).Ok?
    ensures Normalized(Normalized(p).value) == Normalized(p)
    ensures ReadOnly(Normalized(p).value) == ReadOnly(p) && Writable(p) == !ReadOnly(p)
  {
    NormalizedIdempotent(p);
  }

  /** `normalizeScope`: refuse an empty or mixed scope, otherwise list the distinct normal forms in order. */
  method NormalizeScope(paths: seq<string>) returns (r: Result<seq<string>>)
    ensures r.Ok? <==>
      && paths != []
      && (forall p :: p in paths ==> Normalized(p).Ok?)
      && ((forall p :: p in paths ==> ReadOnly(p)) || (forall p :: p in paths ==> Writable(p)))
    ensures r.Err? ==> r.code == INVALID_ARGUMENT
    ensures r.Ok? ==> Text.Increasing(r.value) && Stored(r.value)
    ensures r.Ok? ==> forall q :: q in r.value <==> exists p :: p in paths && Normalized(p) == Ok(q)
  {
    hide Normalized, ReadOnly, Writable;
    if |paths| == 0 { return Err(INVALID_ARGUMENT); }
    var seen: seq<string> := [];
    var someReadOnly, someWritable := false, false;
    var i := 0;
    while i < |paths|
      invariant 0 <= i <= |paths|
      invariant forall k :: 0 <= k < i ==> Normalized(paths[k]).Ok? && Normalized(paths[k]).value in seen
      invariant forall k :: 0 <= k < i ==> Writable(paths[k]) == !ReadOnly(paths[k])
      invariant forall q :: q in seen ==>
        Normalized(q) == Ok(q) && exists k :: 0 <= k < i && Normalized(paths[k]) == Ok(q)
      invariant someReadOnly <==> exists k :: 0 <= k < i && ReadOnly(paths[k])
      invariant someWritable <==> exists k :: 0 <= k < i && Writable(paths[k])
    {
      var n := NormalizePath(paths[i]);
      assert paths[i] in paths;
      if n.Err? { return Err(INVALID_ARGUMENT); }
      NormalizingKeepsKind(paths[i]);
      if n.value !in seen { seen := seen + [n.value]; }
      if ReadOnly(n.value) { someReadOnly := true; } else { someWritable := true; }
      i := i + 1;
    }
    if someReadOnly && someWritable {
      return Err(INVALID_ARGUMENT);
    }
    r := Ok(Text.SortDistinct(seen));
  }
}
