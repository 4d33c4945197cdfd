/**
 * What a write scope allows (shared/protocol/src/scope.ts:18-29 and 144-176), in terms of segments and of what its
 * patterns accept.
 */
module ScopeMeaning {
  import opened Bridge
  import opened Scope
  import opened PathSegments
  import opened Globs
  import opened GlobMeaning
  import opened WriteScopes

  /** The first segment of the pattern is the reserved one. */
  predicate Reserved(pattern: string) {
    PathOf(pattern) != [] && PathOf(pattern)[0] == "(no-write)"
  }

  /** The first segment is the text up to the first separator. */
  lemma {:induction false} FirstSegment(x: string, w: string)
    requires forall c :: c in w ==> !IsSeparator(c)
    ensures Segments(x)[0] == w <==> w <= x && (|x| == |w| || IsSeparator(x[|w|]))
    decreases |w|
  {
    if w == "" || x == "" {
      NothingFirst(x);
    } else {
      assert w[0] in w && forall c :: c in w[1..] ==> c in w;
      FirstSegment(x[1..], w[1..]);
      assert w == [w[0]] + w[1..] && x == [x[0]] + x[1..];
      assert w <= x <==> w[0] == x[0] && w[1..] <= x[1..];
    }
  }

  /** A pattern is read-only exactly if its first segment is the reserved one. */
  lemma ReadOnlyMeans(pattern: string)
    ensures IsReadOnlyPattern(pattern).Ok? <==> pattern != "" && Acceptable(pattern)
    ensures IsReadOnlyPattern(pattern).Ok? ==> (IsReadOnlyPattern(pattern).value <==> Reserved(pattern))
  {
    hide Normalized, Acceptable, PathOf, Segments, Joined;
    NormalizingKeepsPath(pattern);
    if Normalized(pattern).Ok? {
      var x := Normalized(pattern).value;
      NormalizedHasShape(pattern);
      FirstSegment(x, NO_WRITE);
      NoBackslash(x);
    }
  }

  lemma NoBackslash(x: string)
    requires NormalShape(x)
    ensures forall i :: 0 <= i < |x| ==> (IsSeparator(x[i]) <==> x[i] == '/')
    ensures |x| > |NO_WRITE| && NO_WRITE <= x ==>
      (x[..|NO_WRITE| + 1] == NO_WRITE + "/" <==> x[|NO_WRITE|] == '/')
  {
    if |x| > |NO_WRITE| && NO_WRITE <= x {
      assert x[..|NO_WRITE| + 1] == NO_WRITE + [x[|NO_WRITE|]];
    }
  }

  lemma StoredIsAcceptable(p: string)
    requires Normalized(p) == Ok(p)
    ensures p != "" && Acceptable(p) && Joined(PathOf(p)) == p
  {
    NormalizingKeepsPath(p);
  }

  /** A stored scope is read-only exactly if it has a pattern and all its patterns are reserved. */
  lemma {:induction false} ReadOnlyScopeMeans(paths: seq<string>)
    requires Stored(paths)
    ensures EveryReadOnly(paths) == Ok(forall p :: p in paths ==> Reserved(p))
    ensures IsReadOnlyScope(paths) == Ok(paths != [] && forall p :: p in paths ==> Reserved(p))
  {
    hide Normalized, IsReadOnlyPattern, Reserved, Acceptable;
    if paths != [] {
      assert paths[0] in paths && forall p :: p in paths <==> p == paths[0] || p in paths[1..];
      StoredIsAcceptable(paths[0]);
      ReadOnlyMeans(paths[0]);
      ReadOnlyScopeMeans(paths[1..]);
    }
  }

  lemma {:induction false} SomeMatchesMeans(paths: seq<string>, path: string)
    requires Stored(paths) && path != "" && Acceptable(path)
    ensures SomeMatches(paths, path) == Ok(exists p :: p in paths && GlobMeaning.Accepts(p, Joined(PathOf(path))))
  {
    hide Normalized, MatchesGlob, GlobMeaning.Accepts, Acceptable, PathOf, Joined;
    if paths != [] {
      assert paths[0] in paths && forall p :: p in paths <==> p == paths[0] || p in paths[1..];
      StoredIsAcceptable(paths[0]);
      MatchesGlobMeans(path, paths[0]);
      SomeMatchesMeans(paths[1..], path);
    }
  }

  /**
   * A stored scope allows a path exactly if some pattern is not reserved and some pattern accepts the path;
     a path that is
   * not one of the repository is refused by every scope that could allow anything.
   */
  lemma ScopeAllowsMeans(paths: seq<string>, path: string)
    requires Stored(paths) && paths != []
    ensures path != "" && Acceptable(path) ==>
      ScopeAllows(paths, path) == Ok((exists p :: p in paths && !Reserved(p))
        && exists p :: p in paths && GlobMeaning.Accepts(p, Joined(PathOf(path))))
    ensures !(path != "" && Acceptable(path)) && (exists p :: p in paths && !Reserved(p)) ==>
      ScopeAllows(paths, path) == Err(INVALID_ARGUMENT)
  {
    hide Normalized, MatchesGlob, GlobMeaning.Accepts, Acceptable, PathOf, Joined, Reserved, EveryReadOnly;
    ReadOnlyScopeMeans(paths);
    if path != "" && Acceptable(path) {
      SomeMatchesMeans(paths, path);
    } else {
      assert paths[0] in paths;
      StoredIsAcceptable(paths[0]);
      MatchesGlobMeans(path, paths[0]);
      RefusedPath(path, paths[0]);
    }
  }

  lemma RefusedPath(path: string, glob: string)
    requires MatchesGlob(path, glob).Err?
    ensures MatchesGlob(path, glob) == Err(INVALID_ARGUMENT)
  {
    NormalizedCodes(path);
    NormalizedCodes(glob);
    hide Normalized;
  }

  // ---------------------------------------------------------------- the pairs that conflict

  lemma {:induction false} PairsOfOneExactly(pa: string, bs: seq<string>)
    requires Normalized(pa) == Ok(pa) && Stored(bs)
    ensures PairsOfOne(pa, bs).Ok?
    ensures forall x, y :: (x, y) in PairsOfOne(pa, bs).value <==> x == pa && y in bs && PatternsOverlap(pa, y)
  {
    hide PatternsOverlap, Normalized;
    PairsOfOneMeaning(pa, bs);
    if bs != [] {
      assert bs[0] in bs && forall p :: p in bs <==> p == bs[0] || p in bs[1..];
      PairsOfOneExactly(pa, bs[1..]);
    }
  }

  lemma {:induction false} PairsExactly(as': seq<string>, bs: seq<string>)
    requires Stored(as') && Stored(bs)
    ensures Pairs(as', bs).Ok?
    ensures forall x, y :: (x, y) in Pairs(as', bs).value <==> x in as' && y in bs && PatternsOverlap(x, y)
  {
    hide PatternsOverlap, Normalized, PairsOfOne;
    PairsMeaning(as', bs);
    if as' != [] {
      assert as'[0] in as' && forall p :: p in as' <==> p == as'[0] || p in as'[1..];
      PairsOfOneExactly(as'[0], bs);
      PairsExactly(as'[1..], bs);
    }
  }

  /** The pairs reported are exactly the overlapping ones of two scopes that both have a pattern to write. */
  lemma ConflictingPairsExactly(as': seq<string>, bs: seq<string>)
    requires Stored(as') && Stored(bs) && as' != [] && bs != []
    ensures ConflictingPairs(as', bs).Ok?
    ensures forall x, y :: (x, y) in ConflictingPairs(as', bs).value <==>
      && (exists p :: p in as' && !Reserved(p)) && (exists p :: p in bs && !Reserved(p))
      && x in as' && y in bs && PatternsOverlap(x, y)
  {
    hide PatternsOverlap, Normalized, Pairs, Reserved;
    ReadOnlyScopeMeans(as');
    ReadOnlyScopeMeans(bs);
    PairsExactly(as', bs);
  }
}
