/**
 * What a glob accepts (shared/protocol/src/scope.ts:1-16 and 53-91), said without compiling it.
 *
 * `Accepts` splits the text along the glob: a star stands for a run of characters within one segment,
   two stars for a run
 * of characters on one line, a separator before two stars for nothing or for a separator and such a run.
 */
module GlobMeaning {
  import opened Bridge
  import opened Scope
  import opened PathSegments
  import opened Globs

  predicate NoSeparator(c: char) {
    c != '/'
  }

  /** A run of characters of one kind: without a separator, or (`Dot`) without a line terminator. */
  predicate Run(t: string, kind: char -> bool) {
    forall c :: c in t ==> kind(c)
  }

  /** Nothing, or a separator and whatever is below it. */
  predicate Below(t: string) {
    t == "" || (t[0] == '/' && Run(t[1..], Dot))
  }

  ghost predicate Accepts(g: string, s: string)
    decreases |g|
  {
    if g == "" then s == ""
    else if SlashDoubleStar(g) then exists n | 0 <= n <= |s| :: Below(s[..n]) && Accepts(SkipSlash(g[3..]), s[n..])
    else if DoubleStar(g) then exists n | 0 <= n <= |s| :: Run(s[..n], Dot) && Accepts(SkipSlash(g[2..]), s[n..])
    else if g[0] == '*' then exists n | 0 <= n <= |s| :: Run(s[..n], NoSeparator) && Accepts(g[1..], s[n..])
    else s != "" && (if g[0] == '?' then s[0] != '/' else s[0] == g[0]) && Accepts(g[1..], s[1..])
  }

  // ---------------------------------------------------------------- runs of characters

  /** A run, then what the pieces match. */
  ghost predicate RunThen(kind: char -> bool, re: seq<Piece>, s: string) {
    exists n | 0 <= n <= |s| :: Run(s[..n], kind) && Matches(re, s[n..])
  }

  ghost predicate BelowThen(re: seq<Piece>, s: string) {
    exists n | 0 <= n <= |s| :: Below(s[..n]) && Matches(re, s[n..])
  }

  lemma RunCons(kind: char -> bool, s: string, n: nat)
    requires n < |s|
    ensures Run(s[..n + 1], kind) <==> kind(s[0]) && Run(s[1..][..n], kind)
    ensures s[n + 1..] == s[1..][n..]
  {
    assert s[..n + 1] == [s[0]] + s[1..][..n];
    assert forall c :: c in s[..n + 1] <==> c == s[0] || c in s[1..][..n];
  }

  lemma RunLonger(kind: char -> bool, re: seq<Piece>, s: string)
    requires s != "" && kind(s[0]) && RunThen(kind, re, s[1..])
    ensures RunThen(kind, re, s)
  {
    hide Matches, Run;
    var n :| 0 <= n <= |s[1..]| && Run(s[1..][..n], kind) && Matches(re, s[1..][n..]);
    RunCons(kind, s, n);
  }

  lemma RunShorter(kind: char -> bool, re: seq<Piece>, s: string)
    requires RunThen(kind, re, s) && !Matches(re, s)
    ensures s != "" && kind(s[0]) && RunThen(kind, re, s[1..])
  {
    hide Matches, Run;
    var n :| 0 <= n <= |s| && Run(s[..n], kind) && Matches(re, s[n..]);
    assert s[0..] == s;
    RunCons(kind, s, n - 1);
  }

  lemma RunNone(kind: char -> bool, re: seq<Piece>, s: string)
    requires Matches(re, s)
    ensures RunThen(kind, re, s)
  {
    assert s[..0] == "" && s[0..] == s;
  }

  /** A run is empty, or a character and a shorter run. */
  lemma RunSteps(kind: char -> bool, re: seq<Piece>, s: string)
    ensures RunThen(kind, re, s) <==> Matches(re, s) || (s != "" && kind(s[0]) && RunThen(kind, re, s[1..]))
  {
    hide Matches, RunThen;
    if Matches(re, s) { RunNone(kind, re, s); }
    if s != "" && kind(s[0]) && RunThen(kind, re, s[1..]) { RunLonger(kind, re, s); }
    if RunThen(kind, re, s) && !Matches(re, s) { RunShorter(kind, re, s); }
  }

  lemma {:induction false} StarMeans(re: seq<Piece>, s: string)
    ensures Matches([Star] + re, s) <==> RunThen(NoSeparator, re, s)
    decreases |s|
  {
    hide RunThen;
    assert ([Star] + re)[1..] == re;
    RunSteps(NoSeparator, re, s);
    if s != "" { StarMeans(re, s[1..]); }
  }

  lemma {:induction false} AnyMeans(re: seq<Piece>, s: string)
    ensures Matches([Any] + re, s) <==> RunThen(Dot, re, s)
    decreases |s|
  {
    hide RunThen;
    assert ([Any] + re)[1..] == re;
    RunSteps(Dot, re, s);
    if s != "" { AnyMeans(re, s[1..]); }
  }

  lemma TailMeans(re: seq<Piece>, s: string)
    ensures Matches([OptTail] + re, s) <==> BelowThen(re, s)
  {
    hide RunThen;
    assert ([OptTail] + re)[1..] == re;
    if s != "" { AnyMeans(re, s[1..]); }
    BelowSteps(re, s);
  }

  lemma BelowNone(re: seq<Piece>, s: string)
    requires Matches(re, s)
    ensures BelowThen(re, s)
  {
    assert s[..0] == "" && s[0..] == s;
  }

  lemma BelowCons(s: string, n: nat)
    requires n < |s|
    ensures Below(s[..n + 1]) <==> s[0] == '/' && Run(s[1..][..n], Dot)
    ensures s[n + 1..] == s[1..][n..]
  {
    assert s[..n + 1][1..] == s[1..][..n];
  }

  lemma BelowLonger(re: seq<Piece>, s: string)
    requires s != "" && s[0] == '/' && RunThen(Dot, re, s[1..])
    ensures BelowThen(re, s)
  {
    hide Matches, Run, Below;
    var n :| 0 <= n <= |s[1..]| && Run(s[1..][..n], Dot) && Matches(re, s[1..][n..]);
    BelowCons(s, n);
  }

  lemma BelowShorter(re: seq<Piece>, s: string)
    requires BelowThen(re, s) && !Matches(re, s)
    ensures s != "" && s[0] == '/' && RunThen(Dot, re, s[1..])
  {
    hide Matches, Run, Below;
    var n :| 0 <= n <= |s| && Below(s[..n]) && Matches(re, s[n..]);
    assert s[0..] == s;
    BelowCons(s, n - 1);
  }

  lemma BelowSteps(re: seq<Piece>, s: string)
    ensures BelowThen(re, s) <==> Matches(re, s) || (s != "" && s[0] == '/' && RunThen(Dot, re, s[1..]))
  {
    hide Matches, RunThen, BelowThen;
    if Matches(re, s) { BelowNone(re, s); }
    if s != "" && s[0] == '/' && RunThen(Dot, re, s[1..]) { BelowLonger(re, s); }
    if BelowThen(re, s) && !Matches(re, s) { BelowShorter(re, s); }
  }

  // ---------------------------------------------------------------- the compiled glob

  /** Compiling a glob and matching the pieces decides exactly what the glob accepts. */
  lemma {:induction false} MatchingDecides(g: string, s: string)
    ensures Matches(Pieces(g), s) <==> Accepts(g, s)
    decreases |g|
  {
    if g == "" {
    } else if SlashDoubleStar(g) {
      TailMeans(Pieces(SkipSlash(g[3..])), s);
      TailDecides(g, SkipSlash(g[3..]), s);
    } else if DoubleStar(g) {
      AnyMeans(Pieces(SkipSlash(g[2..])), s);
      AnyDecides(g, SkipSlash(g[2..]), s);
    } else if g[0] == '*' {
      StarMeans(Pieces(g[1..]), s);
      StarDecides(g, g[1..], s);
    } else {
      OneDecides(g, s);
    }
  }

  lemma TailDecides(g: string, rest: string, s: string)
    requires SlashDoubleStar(g) && rest == SkipSlash(g[3..])
    ensures BelowThen(Pieces(rest), s) <==> Accepts(g, s)
    decreases |g|, 0
  {
    hide Pieces, Matches, Below;
    forall n | 0 <= n <= |s| ensures Matches(Pieces(rest), s[n..]) <==> Accepts(rest, s[n..]) {
      MatchingDecides(rest, s[n..]);
    }
  }

  lemma AnyDecides(g: string, rest: string, s: string)
    requires DoubleStar(g) && !SlashDoubleStar(g) && rest == SkipSlash(g[2..])
    ensures RunThen(Dot, Pieces(rest), s) <==> Accepts(g, s)
    decreases |g|, 0
  {
    hide Pieces, Matches, Run;
    forall n | 0 <= n <= |s| ensures Matches(Pieces(rest), s[n..]) <==> Accepts(rest, s[n..]) {
      MatchingDecides(rest, s[n..]);
    }
  }

  lemma StarDecides(g: string, rest: string, s: string)
    requires g != "" && g[0] == '*' && !DoubleStar(g) && rest == g[1..]
    ensures RunThen(NoSeparator, Pieces(rest), s) <==> Accepts(g, s)
    decreases |g|, 0
  {
    hide Pieces, Matches, Run;
    forall n | 0 <= n <= |s| ensures Matches(Pieces(rest), s[n..]) <==> Accepts(rest, s[n..]) {
      MatchingDecides(rest, s[n..]);
    }
  }

  lemma OneDecides(g: string, s: string)
    requires g != "" && g[0] != '*' && !SlashDoubleStar(g)
    ensures Matches(Pieces(g), s) <==> Accepts(g, s)
    decreases |g|, 0
  {
    PiecesOne(g);
    var p, rest := PieceOf(g[0]), Pieces(g[1..]);
    assert ([p] + rest)[0] == p && ([p] + rest)[1..] == rest;
    hide Pieces;
    if s != "" { MatchingDecides(g[1..], s[1..]); }
  }

  /**
   * `matchesGlob` on raw strings: the path with its segments joined is accepted by the glob with its segments joined.
   */
  lemma MatchesGlobMeans(path: string, glob: string)
    ensures MatchesGlob(path, glob).Ok? <==> path != "" && glob != "" && Acceptable(path) && Acceptable(glob)
    ensures MatchesGlob(path, glob).Ok? ==>
      (MatchesGlob(path, glob).value <==> Accepts(Joined(PathOf(glob)), Joined(PathOf(path))))
  {
    hide Normalized, Accepts, Matches, Pieces, Acceptable, PathOf, Joined;
    NormalizingKeepsPath(path);
    NormalizingKeepsPath(glob);
    if Normalized(path).Ok? && Normalized(glob).Ok? {
      MatchingDecides(Normalized(glob).value, Normalized(path).value);
    }
  }

  // ---------------------------------------------------------------- what follows for the globs in use

  /** A literal beginning is matched character by character. */
  lemma {:induction false} LiteralBeginning(t: string, g: string, s: string)
    requires !HasWildcard(t) && !DoubleStar(g)
    ensures Matches(Pieces(t + g), s) <==> t <= s && Matches(Pieces(g), s[|t|..])
    decreases |t|
  {
    hide Pieces, Matches, SlashDoubleStar;
    if t == "" {
      assert t + g == g && s[0..] == s;
    } else {
      assert (t + g)[0] == t[0] && (t + g)[1..] == t[1..] + g;
      assert t[0] in t && forall c :: c in t[1..] ==> c in t;
      NoTailInside(t, g);
      LiteralStep(t + g, s);
      if s != "" {
        LiteralBeginning(t[1..], g, s[1..]);
        assert t == [t[0]] + t[1..] && s == [s[0]] + s[1..];
        if t[1..] <= s[1..] { assert s[|t|..] == s[1..][|t[1..]|..]; }
        assert t <= s <==> t[0] == s[0] && t[1..] <= s[1..];
      }
    }
  }

  lemma NoTailInside(t: string, g: string)
    requires t != "" && !HasWildcard(t) && !DoubleStar(g)
    ensures !SlashDoubleStar(t + g)
  {
    assert (t + g)[1..] == t[1..] + g;
    if |t| > 1 { assert t[1] in t && (t + g)[1] == t[1]; } else { assert t[1..] + g == g; }
  }

  lemma LiteralStep(g: string, s: string)
    requires g != "" && !IsWildcard(g[0]) && !SlashDoubleStar(g)
    ensures Matches(Pieces(g), s) <==> s != "" && s[0] == g[0] && Matches(Pieces(g[1..]), s[1..])
  {
    PiecesOne(g);
    var p, rest := PieceOf(g[0]), Pieces(g[1..]);
    assert ([p] + rest)[0] == p && ([p] + rest)[1..] == rest;
    hide Pieces;
  }

  /** A literal and a star: whatever begins with the literal and has no separator after it. */
  lemma StarStaysInSegment(t: string, s: string)
    requires !HasWildcard(t)
    ensures Matches(Pieces(t + "*"), s) <==> t <= s && '/' !in s[|t|..]
  {
    LiteralBeginning(t, "*", s);
    if t <= s { LoneStar(s[|t|..]); }
  }

  lemma LoneStar(s: string)
    ensures Matches(Pieces("*"), s) <==> '/' !in s
  {
    assert "*"[1..] == "";
    assert Pieces("*") == [Star] + [];
    StarMeans([], s);
    assert s[..|s|] == s && s[|s|..] == "";
    hide Pieces;
  }

  /** A literal and a question mark: one character more, which is not a separator. */
  lemma SingleIsOneCharacter(t: string, s: string)
    requires !HasWildcard(t)
    ensures Matches(Pieces(t + "?"), s) <==> t <= s && |s| == |t| + 1 && s[|t|] != '/'
  {
    LiteralBeginning(t, "?", s);
    assert "?"[1..] == "";
    assert Pieces("?") == [Single] && [Single][1..] == [];
  }

  predicate OnOneLine(t: string) {
    '\n' !in t && '\r' !in t && '\U{2028}' !in t && '\U{2029}' !in t
  }

  /** A literal directory and two stars: the directory itself, and every path below it on one line. */
  lemma TailIsBelow(t: string, s: string)
    requires !HasWildcard(t)
    ensures Matches(Pieces(t + "/**"), s) <==> s == t || (t + "/" <= s && OnOneLine(s[|t| + 1..]))
  {
    LiteralBeginning(t, "/**", s);
    assert "/**"[1..] == "**" && "/**"[3..] == "";
    assert Pieces("/**") == [OptTail] + [];
    if t <= s {
      var r := s[|t|..];
      TailMeans([], r);
      assert r[..|r|] == r && r[|r|..] == "";
      assert BelowThen([], r) <==> Below(r);
      assert r != "" ==> r[1..] == s[|t| + 1..];
      assert s == t + r;
      assert t + "/" <= s <==> r != "" && r[0] == '/';
    } else {
      assert t + "/" <= s ==> t <= s;
    }
  }

  /** Two stars and a separator before a literal: every text on one line that ends with the literal. */
  lemma AnyDepthEnds(t: string, s: string)
    requires !HasWildcard(t)
    ensures Matches(Pieces("**/" + t), s) <==> |t| <= |s| && s[|s| - |t|..] == t && OnOneLine(s[..|s| - |t|])
  {
    hide Pieces, Matches;
    AnyDepthPieces(t);
    AnyMeans(Pieces(t), s);
    EndsAfterRun(t, s);
  }

  lemma AnyDepthPieces(t: string)
    ensures Pieces("**/" + t) == [Any] + Pieces(t)
  {
    var g := "**/" + t;
    assert g[0] == '*' && g[1] == '*' && g[2] == '/';
    assert g[2..][0] == '/' && g[2..][1..] == t;
  }

  lemma EndsAfterRun(t: string, s: string)
    requires !HasWildcard(t)
    ensures RunThen(Dot, Pieces(t), s) <==> |t| <= |s| && s[|s| - |t|..] == t && OnOneLine(s[..|s| - |t|])
  {
    hide Pieces, Matches, HasWildcard;
    forall n | 0 <= n <= |s| ensures Matches(Pieces(t), s[n..]) <==> s[n..] == t {
      LiteralAcceptsItself(t, s[n..]);
    }
    if RunThen(Dot, Pieces(t), s) {
      var n :| 0 <= n <= |s| && Run(s[..n], Dot) && Matches(Pieces(t), s[n..]);
      assert n == |s| - |t|;
      OneLineRuns(s[..n]);
    }
    if |t| <= |s| && s[|s| - |t|..] == t { OneLineRuns(s[..|s| - |t|]); }
  }

  lemma OneLineRuns(s: string)
    ensures Run(s, Dot) <==> OnOneLine(s)
  {
  }

  function Separators(s: string): nat {
    if s == "" then 0 else (if s[0] == '/' then 1 else 0) + Separators(s[1..])
  }

  /** Two stars stand next to each other somewhere. */
  predicate HasDoubleStar(g: string) {
    g != "" && (DoubleStar(g) || HasDoubleStar(g[1..]))
  }

  /** Without two adjacent stars a glob accepts only texts with as many separators as it has itself. */
  lemma {:induction false} SeparatorsAreKept(g: string, s: string)
    requires !HasDoubleStar(g) && Matches(Pieces(g), s)
    ensures Separators(s) == Separators(g)
    decreases |g|
  {
    MatchingDecides(g, s);
    hide Pieces, Matches;
    if g != "" {
      assert !SlashDoubleStar(g) by { if |g| > 1 { assert !HasDoubleStar(g[1..]); } }
      if g[0] == '*' {
        var n :| 0 <= n <= |s| && Run(s[..n], NoSeparator) && Accepts(g[1..], s[n..]);
        MatchingDecides(g[1..], s[n..]);
        SeparatorsAreKept(g[1..], s[n..]);
        RunHasNone(s, n);
      } else {
        MatchingDecides(g[1..], s[1..]);
        SeparatorsAreKept(g[1..], s[1..]);
      }
    }
  }

  lemma {:induction false} RunHasNone(s: string, n: nat)
    requires n <= |s| && Run(s[..n], NoSeparator)
    ensures Separators(s[n..]) == Separators(s)
  {
    if n == 0 {
      assert s[0..] == s;
    } else {
      assert s[0] in s[..n] && s[1..][..n - 1] == s[..n][1..] && s[1..][n - 1..] == s[n..];
      RunHasNone(s[1..], n - 1);
    }
  }
}
