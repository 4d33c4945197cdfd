/**
 * Glob compilation, matching and the conservative overlap test (shared/protocol/src/scope.ts).
 *
 * A compiled glob is a list of the regular-expression pieces the program concatenates; `Matches` is
 * the language of the anchored expression.
 */
module Globs {
  import opened Bridge
  import opened Scope

  /** The pieces `globToRegExp` emits: an escaped character, [^/]*, [^/], .* and (?:/.*)? */
  datatype Piece = Lit(c: char) | Star | Single | Any | OptTail

  predicate IsWildcard(c: char) {
    c == '*' || c == '?'
  }

  predicate HasWildcard(g: string) {
    '*' in g || '?' in g
  }

  function SkipSlash(g: string): (r: string)
    ensures |r| <= |g|
  {
    if g != "" && g[0] == '/' then g[1..] else g
  }

  predicate DoubleStar(g: string) {
    |g| >= 2 && g[0] == '*' && g[1] == '*'
  }

  /** A separator followed by two stars, the form that compiles to an optional tail. */
  predicate SlashDoubleStar(g: string) {
    g != "" && g[0] == '/' && DoubleStar(g[1..])
  }

  /** What a glob compiles to, read from left to right. */
  function Pieces(g: string): seq<Piece>
    decreases |g|
  {
    if g == "" then []
    else if SlashDoubleStar(g) then [OptTail] + Pieces(SkipSlash(g[3..]))
    else if DoubleStar(g) then [Any] + Pieces(SkipSlash(g[2..]))
    else if g[0] == '*' then [Star] + Pieces(g[1..])
    else if g[0] == '?' then [Single] + Pieces(g[1..])
    else [Lit(g[0])] + Pieces(g[1..])
  }

  /** The compilation still to come when `re` has been emitted: an emitted separator may yet be taken back. */
  ghost function Completed(re: seq<Piece>, rest: string): seq<Piece> {
    if re != [] && re[|re| - 1] == Lit('/')
    then re[..|re| - 1] + Pieces("/" + rest)
    else re + Pieces(rest)
  }

  /** The compilation loop of `globToRegExp`, on a normalised glob. */
  method GlobToRegExp(g: string) returns (re: seq<Piece>)
    ensures re == Pieces(g)
  {
    hide Pieces, Completed;
    re := [];
    var i := 0;
    assert g[0..] == g;
    CompletedAtStart(g);
    while i < |g|
      invariant 0 <= i <= |g|
      invariant Completed(re, g[i..]) == Pieces(g)
      decreases |g| - i
    {
      ghost var rest := g[i..];
      ghost var before := re;
      var ch := g[i];
      if ch == '*' {
        if i + 1 < |g| && g[i + 1] == '*' {
          var precededBySlash := |re| > 0 && re[|re| - 1] == Lit('/');
          var j := i + 2;
          if j < |g| && g[j] == '/' { j := j + 1; }
          if precededBySlash {
            re := re[..|re| - 1] + [OptTail];
          } else {
            re := re + [Any];
          }
          CompleteDoubleStar(before, rest);
          assert g[j..] == SkipSlash(rest[2..]);
          i := j;
          continue;
        }
        re := re + [Star];
        CompleteOne(before, rest);
        assert g[i + 1..] == rest[1..];
        i := i + 1;
        continue;
      }
      if ch == '?' {
        re := re + [Single];
        CompleteOne(before, rest);
        assert g[i + 1..] == rest[1..];
        i := i + 1;
        continue;
      }
      re := re + [Lit(ch)];
      CompleteOne(before, rest);
      assert g[i + 1..] == rest[1..];
      i := i + 1;
    }
    assert g[i..] == "";
    CompletedAtEnd(re);
  }

  lemma CompletedAtStart(g: string)
    ensures Completed([], g) == Pieces(g)
  {
  }

  lemma CompletedAtEnd(re: seq<Piece>)
    ensures Completed(re, "") == re
  {
    CompletedPlainly(re, "");
  }

  lemma CompleteDoubleStar(re: seq<Piece>, rest: string)
    requires DoubleStar(rest)
    ensures re != [] && re[|re| - 1] == Lit('/') ==>
      Completed(re[..|re| - 1] + [OptTail], SkipSlash(rest[2..])) == Completed(re, rest)
    ensures !(re != [] && re[|re| - 1] == Lit('/')) ==>
      Completed(re + [Any], SkipSlash(rest[2..])) == Completed(re, rest)
  {
    var after := Pieces(SkipSlash(rest[2..]));
    assert ("/" + rest)[1..] == rest;
    assert ("/" + rest)[3..] == rest[2..];
    assert Pieces("/" + rest) == [OptTail] + after;
    assert Pieces(rest) == [Any] + after;
    if re != [] {
      var init := re[..|re| - 1];
      assert init + [OptTail] + after == init + ([OptTail] + after);
    }
    assert re + [Any] + after == re + ([Any] + after);
  }

  function PieceOf(c: char): Piece {
    if c == '*' then Star else if c == '?' then Single else Lit(c)
  }

  lemma PiecesAfterSlash(rest: string)
    requires !DoubleStar(rest)
    ensures Pieces("/" + rest) == [Lit('/')] + Pieces(rest)
  {
    assert ("/" + rest)[1..] == rest;
  }

  lemma SplitLast(re: seq<Piece>, tail: seq<Piece>)
    requires re != []
    ensures re[..|re| - 1] + ([re[|re| - 1]] + tail) == re + tail
  {
  }

  /** Without a double star ahead, an emitted separator stays. */
  lemma CompletedPlainly(re: seq<Piece>, rest: string)
    requires !DoubleStar(rest)
    ensures Completed(re, rest) == re + Pieces(rest)
  {
    hide Pieces, DoubleStar;
    if re != [] && re[|re| - 1] == Lit('/') {
      PiecesAfterSlash(rest);
      SplitLast(re, Pieces(rest));
    }
  }

  lemma PiecesOne(g: string)
    requires g != "" && !DoubleStar(g) && !SlashDoubleStar(g)
    ensures Pieces(g) == [PieceOf(g[0])] + Pieces(g[1..])
  {
  }

  lemma CompleteOne(re: seq<Piece>, rest: string)
    requires rest != "" && !DoubleStar(rest)
    ensures Completed(re + [PieceOf(rest[0])], rest[1..]) == Completed(re, rest)
  {
    hide Pieces;
    CompletedPlainly(re, rest);
    var p, re' := PieceOf(rest[0]), re + [PieceOf(rest[0])];
    if p == Lit('/') {
      assert re'[..|re'| - 1] == re;
      assert "/" + rest[1..] == rest;
    } else {
      PiecesOne(rest);
      assert re + [p] + Pieces(rest[1..]) == re + ([p] + Pieces(rest[1..]));
    }
  }

  // ---------------------------------------------------------------- matching

  /** `.` excludes the four line terminators. */
  predicate Dot(c: char) {
    c != '\n' && c != '\r' && c != '\U{2028}' && c != '\U{2029}'
  }

  /** The whole of `s` is matched by the pieces. */
  predicate Matches(re: seq<Piece>, s: string)
    decreases |re| + |s|, |re|
  {
    if re == [] then s == ""
    else match re[0]
      case Lit(c) => s != "" && s[0] == c && Matches(re[1..], s[1..])
      case Single => s != "" && s[0] != '/' && Matches(re[1..], s[1..])
      case Star => Matches(re[1..], s) || (s != "" && s[0] != '/' && Matches(re, s[1..]))
      case Any => Matches(re[1..], s) || (s != "" && Dot(s[0]) && Matches(re, s[1..]))
      case OptTail => Matches(re[1..], s) || (s != "" && s[0] == '/' && Matches([Any] + re[1..], s[1..]))
  }

  /** `matchesGlob`. */
  function MatchesGlob(path: string, glob: string): Result<bool> {
    var g :- Normalized(glob);
    var p :- Normalized(path);
    Ok(Matches(Pieces(g), p))
  }

  // ---------------------------------------------------------------- globsOverlap

  function LiteralPrefix(g: string): (r: string)
    ensures |r| <= |g| && g[..|r|] == r
    ensures |r| < |g| ==> IsWildcard(g[|r|])
    ensures !HasWildcard(r)
    ensures !HasWildcard(g) <==> r == g
  {
    if g == "" || IsWildcard(g[0]) then "" else [g[0]] + LiteralPrefix(g[1..])
  }

  function Min(a: nat, b: nat): nat {
    if a <= b then a else b
  }

  /** The comparison of the literal text after the shorter prefix, which the program runs last. */
  predicate RemaindersDiffer(na: string, nb: string, cut: nat)
    requires cut <= |na| && cut <= |nb|
  {
    var litA := LiteralPrefix(na[cut..]);
    var litB := LiteralPrefix(nb[cut..]);
    var minLit := Min(|litA|, |litB|);
    minLit > 0 && litA[..minLit] != litB[..minLit]
  }

  /** `globsOverlap` after both patterns have been normalised. */
  predicate PatternsOverlap(na: string, nb: string) {
    if na == nb then true
    else if !HasWildcard(na) && Matches(Pieces(nb), na) then true
    else if !HasWildcard(nb) && Matches(Pieces(na), nb) then true
    else
      var pa := LiteralPrefix(na);
      var pb := LiteralPrefix(nb);
      if !HasWildcard(na) && !HasWildcard(nb) then false
      else
        var shorter := if |pa| <= |pb| then pa else pb;
        var longer := if |pa| <= |pb| then pb else pa;
        if |shorter| == 0 then true
        else if longer[..|shorter|] != shorter then false
        else if RemaindersDiffer(na, nb, |shorter|) then false
        else true
  }

  function GlobsOverlap(a: string, b: string): Result<bool> {
    var na :- Normalized(a);
    var nb :- Normalized(b);
    Ok(PatternsOverlap(na, nb))
  }

  /** One of the two remainders starts at a wildcard or is empty, so the last check never fires. */
  lemma RemainderCheckIsRedundant(na: string, nb: string)
    ensures !RemaindersDiffer(na, nb, Min(|LiteralPrefix(na)|, |LiteralPrefix(nb)|))
  {
  }

  predicate Comparable(p: string, q: string) {
    p <= q || q <= p
  }

  /** The answer of the overlap test, without its order of checks. */
  lemma OverlapMeaning(na: string, nb: string)
    ensures PatternsOverlap(na, nb) <==>
      || na == nb
      || (!HasWildcard(na) && Matches(Pieces(nb), na))
      || (!HasWildcard(nb) && Matches(Pieces(na), nb))
      || ((HasWildcard(na) || HasWildcard(nb)) && Comparable(LiteralPrefix(na), LiteralPrefix(nb)))
  {
    hide Matches, Pieces, LiteralPrefix, HasWildcard;
    var pa, pb := LiteralPrefix(na), LiteralPrefix(nb);
    RemainderCheckIsRedundant(na, nb);
    if |pa| <= |pb| {
      assert pa <= pb <==> pb[..|pa|] == pa;
      assert pb <= pa ==> pa == pb;
    } else {
      assert pb <= pa <==> pa[..|pb|] == pb;
    }
  }

  lemma OverlapSymmetric(a: string, b: string)
    ensures Normalized(a).Ok? && Normalized(b).Ok? ==> GlobsOverlap(a, b) == GlobsOverlap(b, a)
    ensures GlobsOverlap(a, b).Ok? <==> GlobsOverlap(b, a).Ok?
  {
    hide PatternsOverlap, Normalized, Matches, Pieces, LiteralPrefix, HasWildcard;
    if Normalized(a).Ok? && Normalized(b).Ok? {
      OverlapMeaning(Normalized(a).value, Normalized(b).value);
      OverlapMeaning(Normalized(b).value, Normalized(a).value);
    }
  }

  // ---------------------------------------------------------------- soundness

  /**
   * The first wildcard is not a separator with two stars unless it ends the pattern. (When it does
   * not end the pattern, the compiled form may skip the separator and glue the two parts together.)
   */
  predicate EndsAtFirst(g: string) {
    var k := |LiteralPrefix(g)|;
    k >= 1 && g[k - 1] == '/' && DoubleStar(g[k..]) ==> k + 2 == |g|
  }

  /** How an accepted text relates to the literal prefix `p` of the glob `g`. */
  ghost predicate Begins(g: string, p: string, s: string) {
    p <= s || (p == s + "/" && g == p + "**")
  }

  lemma BeginsCons(c: char, g: string, p: string, s: string)
    requires Begins(g, p, s)
    ensures Begins([c] + g, [c] + p, [c] + s)
  {
    if p <= s {
      assert ([c] + s)[..|p| + 1] == [c] + s[..|p|];
    } else {
      assert [c] + (s + "/") == [c] + s + "/";
      assert [c] + (p + "**") == [c] + p + "**";
    }
  }

  /** A text the glob accepts begins with its literal prefix, or is that prefix without its separator. */
  lemma {:induction false} AcceptedBegins(g: string, s: string)
    requires EndsAtFirst(g) && Matches(Pieces(g), s)
    ensures Begins(g, LiteralPrefix(g), s)
    decreases |g|
  {
    hide Matches, Pieces, LiteralPrefix, EndsAtFirst;
    if g == "" || IsWildcard(g[0]) {
      NoLiteralPrefix(g);
    } else if SlashDoubleStar(g) {
      SlashDoubleStarBegins(g, s);
    } else {
      EndsAtFirstTail(g);
      LiteralFirst(g, s);
      AcceptedBegins(g[1..], s[1..]);
      hide Begins;
      BeginsCons(g[0], g[1..], LiteralPrefix(g[1..]), s[1..]);
      assert s == [g[0]] + s[1..];
      assert g == [g[0]] + g[1..];
    }
  }

  lemma NoLiteralPrefix(g: string)
    requires g == "" || IsWildcard(g[0])
    ensures LiteralPrefix(g) == ""
  {
  }

  /** What a pattern that begins with a literal accepts begins with it, and the rest of the pattern accepts the rest. */
  lemma LiteralFirst(g: string, s: string)
    requires g != "" && !IsWildcard(g[0]) && !SlashDoubleStar(g) && Matches(Pieces(g), s)
    ensures s != "" && s[0] == g[0] && Matches(Pieces(g[1..]), s[1..])
  {
    assert Pieces(g) == [Lit(g[0])] + Pieces(g[1..]);
    assert Pieces(g)[1..] == Pieces(g[1..]);
  }

  lemma SlashDoubleStarBegins(g: string, s: string)
    requires SlashDoubleStar(g) && EndsAtFirst(g) && Matches(Pieces(g), s)
    ensures Begins(g, LiteralPrefix(g), s)
  {
    assert LiteralPrefix(g[1..]) == "";
    assert LiteralPrefix(g) == "/";
    assert g == "/**";
    assert g[3..] == "";
    assert Pieces(g) == [OptTail];
  }

  lemma EndsAtFirstTail(g: string)
    requires g != "" && !IsWildcard(g[0]) && !SlashDoubleStar(g)
    ensures LiteralPrefix(g) == [g[0]] + LiteralPrefix(g[1..])
    ensures EndsAtFirst(g) ==> EndsAtFirst(g[1..])
  {
    assert g[1..][|LiteralPrefix(g[1..])|..] == g[|LiteralPrefix(g)|..];
  }

  /** A pattern without wildcards accepts only itself. */
  lemma {:induction false} LiteralAcceptsItself(g: string, s: string)
    requires !HasWildcard(g)
    ensures Matches(Pieces(g), s) <==> s == g
    decreases |g|
  {
    if g != "" {
      assert g[0] in g;
      assert g == [g[0]] + g[1..];
      assert forall c :: c in g[1..] ==> c in g;
      assert !SlashDoubleStar(g) by { if |g| > 1 { assert g[1] in g; } }
      assert Pieces(g)[1..] == Pieces(g[1..]);
      if s != "" {
        LiteralAcceptsItself(g[1..], s[1..]);
        assert s == [s[0]] + s[1..];
      }
    }
  }

  /** Two patterns that accept a common text which both begin are reported as overlapping. */
  lemma BegunTextOverlaps(na: string, nb: string, s: string)
    requires Begins(na, LiteralPrefix(na), s) && Begins(nb, LiteralPrefix(nb), s)
    requires Matches(Pieces(na), s) && Matches(Pieces(nb), s)
    ensures PatternsOverlap(na, nb)
  {
    OverlapMeaning(na, nb);
    if !HasWildcard(na) { LiteralAcceptsItself(na, s); }
    if !HasWildcard(nb) { LiteralAcceptsItself(nb, s); }
    var pa, pb := LiteralPrefix(na), LiteralPrefix(nb);
    if pa <= s && pb <= s {
      PrefixesOfOneText(pa, pb, s);
    } else if pa <= s {
      assert s <= pb;
    } else if pb <= s {
      assert s <= pa;
    }
  }

  /** Two compiled patterns that accept a common text are reported as overlapping. */
  lemma SharedTextOverlaps(na: string, nb: string, s: string)
    requires EndsAtFirst(na) && EndsAtFirst(nb)
    requires Matches(Pieces(na), s) && Matches(Pieces(nb), s)
    ensures PatternsOverlap(na, nb)
  {
    AcceptedBegins(na, s);
    AcceptedBegins(nb, s);
    BegunTextOverlaps(na, nb, s);
  }

  lemma PrefixesOfOneText(p: string, q: string, s: string)
    requires p <= s && q <= s
    ensures Comparable(p, q)
  {
    assert p == s[..|p|] && q == s[..|q|];
    if |p| <= |q| { assert q[..|p|] == p; } else { assert p[..|q|] == q; }
  }

  // ---------------------------------------------------------------- exactness

  /** A text accepted by the glob: every wildcard is filled in with a letter. */
  function Fill(g: string): (r: string)
    ensures !HasWildcard(r)
    decreases |g|
  {
    if g == "" then ""
    else if SlashDoubleStar(g) then "/" + ("z" + Fill(SkipSlash(g[3..])))
    else if DoubleStar(g) then "z" + Fill(SkipSlash(g[2..]))
    else if IsWildcard(g[0]) then "z" + Fill(g[1..])
    else [g[0]] + Fill(g[1..])
  }

  lemma {:induction false} FillAccepted(g: string)
    ensures Matches(Pieces(g), Fill(g))
    decreases |g|
  {
    if g == "" {
    } else if SlashDoubleStar(g) {
      FillAccepted(SkipSlash(g[3..]));
      LetterThenRest(Any, Pieces(SkipSlash(g[3..])), Fill(SkipSlash(g[3..])));
      TailThenRest(Pieces(SkipSlash(g[3..])), "z" + Fill(SkipSlash(g[3..])));
    } else if DoubleStar(g) {
      FillAccepted(SkipSlash(g[2..]));
      LetterThenRest(Any, Pieces(SkipSlash(g[2..])), Fill(SkipSlash(g[2..])));
    } else if IsWildcard(g[0]) {
      FillAccepted(g[1..]);
      LetterThenRest(PieceOf(g[0]), Pieces(g[1..]), Fill(g[1..]));
    } else {
      FillAccepted(g[1..]);
      assert Pieces(g)[1..] == Pieces(g[1..]);
      assert Fill(g)[1..] == Fill(g[1..]);
    }
  }

  lemma LetterThenRest(p: Piece, re: seq<Piece>, s: string)
    requires p == Any || p == Star || p == Single
    requires Matches(re, s)
    ensures Matches([p] + re, "z" + s)
  {
    assert ([p] + re)[1..] == re;
    assert ("z" + s)[1..] == s;
  }

  lemma TailThenRest(re: seq<Piece>, s: string)
    requires Matches([Any] + re, s)
    ensures Matches([OptTail] + re, "/" + s)
  {
    assert ([OptTail] + re)[1..] == re;
    assert ("/" + s)[1..] == s;
  }

  /** The part of a glob after a first separator with two stars. */
  function AfterTail(g: string): string
    requires !EndsAtFirst(g)
  {
    SkipSlash(g[|LiteralPrefix(g)| + 2..])
  }

  /** The accepted text that skips the separator: the two literal parts are glued together. */
  function Glued(g: string): string
    requires !EndsAtFirst(g)
  {
    g[..|LiteralPrefix(g)| - 1] + Fill(AfterTail(g))
  }

  lemma {:induction false} GluedAccepted(g: string)
    requires !EndsAtFirst(g)
    ensures Matches(Pieces(g), Glued(g))
    decreases |g|
  {
    if SlashDoubleStar(g) {
      GluedAtStart(g);
      FillAccepted(SkipSlash(g[3..]));
      assert Pieces(g)[1..] == Pieces(SkipSlash(g[3..]));
    } else {
      GluedTail(g);
      GluedAccepted(g[1..]);
      assert Glued(g)[1..] == Glued(g[1..]);
      assert Pieces(g)[1..] == Pieces(g[1..]);
    }
  }

  lemma GluedAtStart(g: string)
    requires SlashDoubleStar(g) && !EndsAtFirst(g)
    ensures Glued(g) == Fill(SkipSlash(g[3..]))
  {
    assert LiteralPrefix(g[1..]) == "";
    assert LiteralPrefix(g) == "/";
  }

  lemma SliceCons(g: string, n: nat)
    requires n < |g|
    ensures g[1..][n..] == g[n + 1..] && g[..n + 1] == [g[0]] + g[1..][..n]
  {
  }

  lemma GluedTail(g: string)
    requires !SlashDoubleStar(g) && !EndsAtFirst(g)
    ensures !IsWildcard(g[0]) && !EndsAtFirst(g[1..])
    ensures Glued(g) == [g[0]] + Glued(g[1..])
  {
    hide Fill, LiteralPrefix;
    var k := |LiteralPrefix(g)|;
    LiteralPrefixTail(g);
    SliceCons(g, k - 1);
    assert k > 1;
    assert g[1..][k - 2] == g[k - 1];
    SliceCons(g, k + 1);
    SliceCons(g, k - 2);
    assert AfterTail(g[1..]) == AfterTail(g);
    var rest := Fill(AfterTail(g));
    assert [g[0]] + g[1..][..k - 2] + rest == [g[0]] + (g[1..][..k - 2] + rest);
  }

  /** The first wildcard of a glob that may glue is not its first character. */
  lemma LiteralPrefixTail(g: string)
    requires |LiteralPrefix(g)| >= 1
    ensures !IsWildcard(g[0]) && |LiteralPrefix(g)| == 1 + |LiteralPrefix(g[1..])|
  {
  }

  /** In normal form the glued part is not empty and does not start with a separator. */
  lemma AfterTailStarts(g: string)
    requires NormalShape(g) && !EndsAtFirst(g)
    ensures Fill(AfterTail(g)) != "" && Fill(AfterTail(g))[0] != '/'
  {
    var k := |LiteralPrefix(g)|;
    var rest := AfterTail(g);
    assert !DoubleSlashAt(g, k + 2);
    assert g[|g| - 1] != '/';
  }

  /**
   * A text without wildcards that skips the separator, followed by a star, is a partner that the overlap test misses.
   */
  lemma SkippedPartnerMissed(g: string, t: string)
    requires !EndsAtFirst(g) && !HasWildcard(t)
    requires var k := |LiteralPrefix(g)|; k <= |t| && t[..k - 1] == g[..k - 1] && t[k - 1] != '/'
    ensures var b := t + "*";
      EndsAtFirst(b) && Matches(Pieces(b), t) && LiteralPrefix(b) == t && !PatternsOverlap(g, b)
  {
    var b := t + "*";
    var k := |LiteralPrefix(g)|;
    LiteralThenStar(t);
    assert b[|t|] == '*';
    assert b[|t|..] == "*";
    assert g[k] == '*' && HasWildcard(g);
    assert LiteralPrefix(g)[k - 1] == '/' && t[k - 1] != '/';
    OverlapMeaning(g, b);
  }

  /** The partner that the overlap test misses: the glued text followed by a star. */
  lemma GluedPartnerMissed(g: string)
    requires NormalShape(g) && !EndsAtFirst(g)
    ensures var b := Glued(g) + "*";
      EndsAtFirst(b) && Matches(Pieces(b), Glued(g)) && LiteralPrefix(b) == Glued(g) && !PatternsOverlap(g, b)
  {
    var k := |LiteralPrefix(g)|;
    AfterTailStarts(g);
    assert !HasWildcard(g[..k - 1]) by { assert forall c :: c in g[..k - 1] ==> c in LiteralPrefix(g); }
    SkippedPartnerMissed(g, Glued(g));
  }

  lemma {:induction false} LiteralThenStar(t: string)
    requires !HasWildcard(t)
    ensures LiteralPrefix(t + "*") == t
    ensures Matches(Pieces(t + "*"), t)
    decreases |t|
  {
    hide Matches, Pieces, LiteralPrefix;
    var b := t + "*";
    if t == "" {
      assert b == "*";
      StarAlone();
    } else {
      NoWildcardInside(t);
      assert b[1..] == t[1..] + "*";
      LiteralThenStar(t[1..]);
      assert t == [t[0]] + t[1..];
      EndsAtFirstTail(b);
      LiteralHead(b, t);
    }
  }

  lemma StarAlone()
    ensures LiteralPrefix("*") == "" && Matches(Pieces("*"), "")
  {
    assert "*"[1..] == "";
  }

  lemma NoWildcardInside(t: string)
    requires t != "" && !HasWildcard(t)
    ensures !IsWildcard(t[0]) && !HasWildcard(t[1..]) && !SlashDoubleStar(t + "*")
  {
    assert t[0] in t;
    assert forall c :: c in t[1..] ==> c in t;
    if |t| > 1 { assert t[1] in t && (t + "*")[1] == t[1]; }
  }

  lemma LiteralHead(b: string, t: string)
    requires t != "" && b == t + "*" && !HasWildcard(t) && Matches(Pieces(b[1..]), t[1..])
    ensures Matches(Pieces(b), t)
  {
    assert t[0] in t;
    if |t| > 1 { assert t[1] in t && b[1] == t[1]; }
    assert Pieces(b) == [Lit(t[0])] + Pieces(b[1..]);
    assert Pieces(b)[1..] == Pieces(b[1..]);
  }

  ghost predicate NeverMissed(g: string) {
    forall b, s :: EndsAtFirst(b) && Matches(Pieces(g), s) && Matches(Pieces(b), s) ==> PatternsOverlap(g, b)
  }

  /** `EndsAtFirst` is the exact condition for compiled patterns: no partner is missed if and only if it holds. */
  lemma OverlapExact(g: string)
    requires NormalShape(g)
    ensures NeverMissed(g) <==> EndsAtFirst(g)
  {
    if EndsAtFirst(g) {
      forall b, s | EndsAtFirst(b) && Matches(Pieces(g), s) && Matches(Pieces(b), s)
        ensures PatternsOverlap(g, b)
      {
        SharedTextOverlaps(g, b, s);
      }
    } else {
      GluedAccepted(g);
      GluedPartnerMissed(g);
    }
  }

  /** Both globs accept the path and yet the overlap test denies that they overlap. */
  ghost predicate Missed(a: string, b: string, path: string) {
    MatchesGlob(path, a) == Ok(true) && MatchesGlob(path, b) == Ok(true) && GlobsOverlap(a, b) == Ok(false)
  }

  /** Whenever the glued text is itself a legal path, the overlap test misses a pair that shares this path. */
  lemma GluedPathMissed(a: string)
    requires Normalized(a).Ok? && !EndsAtFirst(Normalized(a).value)
    requires NormalShape(Glued(Normalized(a).value))
    ensures var path := Glued(Normalized(a).value); Missed(a, path + "*", path)
  {
    var g := Normalized(a).value;
    var path := Glued(g);
    NormalizedIdempotent(a);
    NormalizedIdempotent(path);
    GluedAccepted(g);
    GluedPartnerMissed(g);
    StarKeepsShape(path);
    NormalizedIdempotent(path + "*");
  }

  lemma StarKeepsShape(p: string)
    requires NormalShape(p)
    ensures NormalShape(p + "*")
  {
    var b := p + "*";
    forall k: nat | k < |b| ensures !DoubleSlashAt(b, k) {
      assert k < |p| ==> !DoubleSlashAt(p, k);
    }
    forall k: nat | k < |b| ensures !ParentSegmentAt(b, k) {
      assert k < |p| ==> !ParentSegmentAt(p, k);
    }
  }

  /** The smallest instance: a separator with two stars in the middle, against a starred prefix. */
  lemma CollapsedSeparatorExample()
    ensures Missed("a/**/b", "ab*", "ab")
  {
    ExampleShape();
    ExampleGlued();
    assert "ab" + "*" == "ab*";
    GluedMissed("a/**/b", "ab", "ab*");
  }

  lemma GluedMissed(g: string, path: string, b: string)
    requires NormalShape(g) && !EndsAtFirst(g) && Glued(g) == path && NormalShape(path) && b == path + "*"
    ensures Missed(g, b, path)
  {
    NormalizedIdempotent(g);
    GluedPathMissed(g);
  }

  lemma ExampleShape()
    ensures NormalShape("a/**/b") && NormalShape("ab")
  {
  }

  lemma ExamplePrefix()
    ensures LiteralPrefix("a/**/b") == "a/"
  {
    var g := "a/**/b";
    assert g[1..] == "/**/b" && "/**/b"[1..] == "**/b";
    assert LiteralPrefix("**/b") == "";
    assert LiteralPrefix("/**/b") == "/" + "";
    assert LiteralPrefix(g) == "a" + "/";
  }

  lemma ExampleGlued()
    ensures !EndsAtFirst("a/**/b") && Glued("a/**/b") == "ab"
  {
    var g := "a/**/b";
    ExamplePrefix();
    hide LiteralPrefix;
    assert g[2..] == "**/b" && g[4..] == "/b" && "/b"[1..] == "b" && "b"[1..] == "";
    assert Fill("b") == "b" + "";
  }
}
