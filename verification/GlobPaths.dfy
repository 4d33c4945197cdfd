/**
 * Exactness of the overlap test on legal paths (shared/protocol/src/scope.ts:31-131).
 *
 * A pattern with two stars in the middle accepts texts in which the parts on both sides meet. Whether one of
 * these texts is a legal path can be read off the two places where the parts meet.
 */
module GlobPaths {
  import opened Bridge
  import opened Scope
  import opened PathSegments
  import opened Globs

  /** No safe partner in normal form that shares a legal path with the pattern is missed. */
  ghost predicate NeverMissedOnPaths(g: string) {
    forall b, path | NormalShape(b) && NormalShape(path) && SafeOnPaths(b) && Matches(Pieces(g), path)
      && Matches(Pieces(b), path) ::
      PatternsOverlap(g, b)
  }

  /** What stands before the separator that may be skipped. */
  function Head(g: string): string
    requires !EndsAtFirst(g)
  {
    g[..|LiteralPrefix(g)| - 1]
  }

  predicate EndsInDot(head: string) {
    |head| >= 2 && head[|head| - 1] == '.' && head[|head| - 2] == '/'
  }

  /** Every text the rest of a pattern accepts begins with a segment that is a single dot. */
  predicate DotFirst(tail: string) {
    tail == "." || tail == "./**" || (|tail| >= 2 && tail[0] == '.' && tail[1] == '/' && !DoubleStar(tail[2..]))
  }

  /** The parts can only meet in a drive letter or in a parent segment. */
  predicate MeetsIllegally(head: string, tail: string) {
    || (|head| == 1 && AsciiLetter(head[0]) && tail != "" && tail[0] == ':')
    || (EndsInDot(head) && DotFirst(tail))
  }

  /** The exact condition: the separator ends the pattern, or skipping it yields no legal path. */
  predicate SafeOnPaths(g: string) {
    EndsAtFirst(g) || MeetsIllegally(Head(g), AfterTail(g))
  }

  // ---------------------------------------------------------------- what an accepted text skips

  /** A text the pattern accepts begins with its literal prefix, or skips the separator. */
  lemma {:induction false} BeginsOrSkips(g: string, s: string)
    requires !EndsAtFirst(g) && Matches(Pieces(g), s)
    ensures LiteralPrefix(g) <= s || (Head(g) <= s && Matches(Pieces(AfterTail(g)), s[|Head(g)|..]))
    decreases |g|
  {
    if SlashDoubleStar(g) {
      assert LiteralPrefix(g[1..]) == "";
      assert LiteralPrefix(g) == "/";
      assert AfterTail(g) == SkipSlash(g[3..]);
      assert Pieces(g)[1..] == Pieces(SkipSlash(g[3..]));
      assert s[0..] == s;
    } else {
      GluedTail(g);
      SameTail(g);
      assert Pieces(g)[1..] == Pieces(g[1..]);
      BeginsOrSkips(g[1..], s[1..]);
      assert s == [g[0]] + s[1..];
      var p := LiteralPrefix(g[1..]);
      if p <= s[1..] {
        assert ([g[0]] + s[1..])[..|p| + 1] == [g[0]] + s[1..][..|p|];
      } else {
        var h := Head(g[1..]);
        assert ([g[0]] + s[1..])[..|h| + 1] == [g[0]] + s[1..][..|h|];
        assert s[|h| + 1..] == s[1..][|h|..];
      }
    }
  }

  lemma SameTail(g: string)
    requires !SlashDoubleStar(g) && !EndsAtFirst(g)
    ensures !EndsAtFirst(g[1..]) && LiteralPrefix(g) == [g[0]] + LiteralPrefix(g[1..])
    ensures Head(g) == [g[0]] + Head(g[1..]) && AfterTail(g) == AfterTail(g[1..])
  {
    GluedTail(g);
    var k := |LiteralPrefix(g)|;
    LiteralPrefixTail(g);
    SliceCons(g, k + 1);
    assert k >= 2;
    SliceCons(g, k - 2);
    SliceCons(g, k - 1);
  }

  /** No legal path skips the separator where the parts can only meet illegally. */
  lemma SkipsIllegally(head: string, tail: string, s: string)
    requires MeetsIllegally(head, tail) && head <= s && Matches(Pieces(tail), s[|head|..])
    ensures !NormalShape(s)
  {
    var m := s[|head|..];
    if |head| == 1 && AsciiLetter(head[0]) && tail != "" && tail[0] == ':' {
      assert Pieces(tail) == [Lit(':')] + Pieces(tail[1..]);
      assert m[0] == ':' && s[0] == head[0] && s[1] == ':';
    } else {
      DotTexts(tail, m);
      var n := |head|;
      assert s[n - 1] == head[n - 1] && s[n - 2] == head[n - 2] && s[n] == m[0];
      assert |m| > 1 ==> s[n + 1] == m[1];
      assert ParentSegmentAt(s, n - 1);
    }
  }

  lemma DotTexts(tail: string, m: string)
    requires DotFirst(tail) && Matches(Pieces(tail), m)
    ensures m != "" && m[0] == '.' && (|m| == 1 || m[1] == '/')
  {
    assert Pieces(tail) == [Lit('.')] + Pieces(tail[1..]);
    assert Pieces(tail)[1..] == Pieces(tail[1..]);
    var rest := tail[1..];
    assert m != "" && m[0] == '.' && Matches(Pieces(rest), m[1..]);
    if tail == "." {
      assert rest == "";
    } else if tail == "./**" {
      assert rest == "/**" && rest[1..] == "**" && rest[3..] == "";
      TailTexts(m[1..]);
    } else {
      assert rest[1..] == tail[2..];
      assert Pieces(rest) == [Lit('/')] + Pieces(rest[1..]);
    }
  }

  lemma TailTexts(m: string)
    requires Matches(Pieces("/**"), m)
    ensures m == "" || m[0] == '/'
  {
    assert "/**"[1..] == "**" && "/**"[3..] == "";
    assert Pieces("/**") == [OptTail];
    assert [OptTail][1..] == [];
  }

  // ---------------------------------------------------------------- filled-in texts keep their shape

  lemma {:induction false} ParentLater(h: string, n: nat, start: bool)
    requires n <= |h| && !ParentFrom(h, start)
    ensures !ParentFrom(h[n..], false)
    decreases n
  {
    if n == 0 {
      assert h[0..] == h;
    } else if |h| >= 2 {
      ParentLater(h[1..], n - 1, h[0] == '/');
      assert h[1..][n - 1..] == h[n..];
    }
  }

  lemma FillStarts(h: string)
    ensures |Fill(h)| <= 0 <==> h == ""
    ensures h != "" ==> Fill(h)[0] == (if IsWildcard(h[0]) then 'z' else h[0])
  {
  }

  lemma {:induction false} FillNoParent(h: string, start: bool)
    requires !ParentFrom(h, start)
    ensures !ParentFrom(Fill(h), start)
    decreases |h|
  {
    if h == "" {
    } else if SlashDoubleStar(h) {
      var rest := SkipSlash(h[3..]);
      ParentLater(h, |h| - |rest|, start);
      assert h[|h| - |rest|..] == rest;
      FillNoParent(rest, false);
      var f := Fill(rest);
      assert Fill(h) == "/" + ("z" + f);
      assert ("/" + ("z" + f))[1..] == "z" + f && ("z" + f)[1..] == f;
    } else if DoubleStar(h) || IsWildcard(h[0]) {
      var rest := if DoubleStar(h) then SkipSlash(h[2..]) else h[1..];
      ParentLater(h, |h| - |rest|, start);
      assert h[|h| - |rest|..] == rest;
      FillNoParent(rest, false);
      assert ("z" + Fill(rest))[1..] == Fill(rest);
    } else {
      FillLiteral(h, start);
    }
  }

  lemma FillLiteral(h: string, start: bool)
    requires h != "" && !SlashDoubleStar(h) && !IsWildcard(h[0]) && !ParentFrom(h, start)
    ensures !ParentFrom(Fill(h), start)
    decreases |h|, 0
  {
    var f := Fill(h[1..]);
    assert Fill(h) == [h[0]] + f;
    assert ([h[0]] + f)[1..] == f;
    FillStarts(h[1..]);
    if |h| >= 2 {
      FillNoParent(h[1..], h[0] == '/');
      if h[1] == '.' {
        assert Fill(h[1..]) == [h[1]] + Fill(h[1..][1..]);
        FillStarts(h[2..]);
        assert h[1..][1..] == h[2..];
      }
    }
  }

  lemma ConsNoDouble(c: char, b: string)
    requires NoDoubleSlash(b) && (c == '/' && b != "" ==> b[0] != '/')
    ensures NoDoubleSlash([c] + b)
  {
    forall k: nat | k < |b| + 1 ensures !DoubleSlashAt([c] + b, k) {
      if k > 0 { assert !DoubleSlashAt(b, k - 1); }
    }
  }

  lemma SuffixNoDouble(h: string, m: nat)
    requires NoDoubleSlash(h) && m <= |h|
    ensures NoDoubleSlash(h[m..])
  {
    forall k: nat | k < |h[m..]| ensures !DoubleSlashAt(h[m..], k) {
      assert !DoubleSlashAt(h, m + k);
    }
  }

  /** Filling in doubles no separator. */
  lemma {:induction false} FillNoDouble(h: string)
    requires NoDoubleSlash(h)
    ensures NoDoubleSlash(Fill(h))
    decreases |h|
  {
    if h != "" {
      var n := if SlashDoubleStar(h) then 3 else if DoubleStar(h) then 2 else 1;
      var rest := if n == 1 then h[1..] else SkipSlash(h[n..]);
      assert rest == h[|h| - |rest|..];
      SuffixNoDouble(h, |h| - |rest|);
      FillNoDouble(rest);
      FillStarts(rest);
      var f := Fill(rest);
      ConsNoDouble('z', f);
      if n == 3 {
        ConsNoDouble('/', "z" + f);
      } else if n == 1 && !IsWildcard(h[0]) {
        assert !DoubleSlashAt(h, 0);
        ConsNoDouble(h[0], f);
      }
    }
  }

  /** Filling in adds only letters and separators. */
  lemma {:induction false} FillChars(h: string, c: char)
    requires c in Fill(h)
    ensures c in h || c == 'z' || c == '/'
    decreases |h|
  {
    var n := if SlashDoubleStar(h) then 3 else if DoubleStar(h) then 2 else 1;
    var rest := if n == 1 then h[1..] else SkipSlash(h[n..]);
    assert rest == h[|h| - |rest|..];
    if c in Fill(rest) { FillChars(rest, c); }
  }

  lemma LastOfJoined(a: string, f: string)
    requires f != ""
    ensures a + f != "" && (a + f)[|a + f| - 1] == f[|f| - 1]
  {
  }

  lemma SkippedIsSuffix(h: string, n: nat)
    requires n <= |h|
    ensures |SkipSlash(h[n..])| <= |h| - n && SkipSlash(h[n..]) == h[|h| - |SkipSlash(h[n..])|..]
  {
    if n < |h| { assert h[n..][1..] == h[n + 1..]; }
  }

  /** What remains of a pattern after its first piece; `lead` is what that piece is filled in with. */
  lemma FillSplits(h: string) returns (lead: string, rest: string)
    requires h != ""
    ensures lead != "" && Fill(h) == lead + Fill(rest) && |rest| < |h| && rest == h[|h| - |rest|..]
    ensures lead[|lead| - 1] == 'z' || (rest == h[1..] && lead == [h[0]])
  {
    if SlashDoubleStar(h) {
      lead, rest := "/z", SkipSlash(h[3..]);
      SkippedIsSuffix(h, 3);
      assert "/" + ("z" + Fill(rest)) == lead + Fill(rest);
    } else if DoubleStar(h) {
      lead, rest := "z", SkipSlash(h[2..]);
      SkippedIsSuffix(h, 2);
    } else {
      lead, rest := if IsWildcard(h[0]) then "z" else [h[0]], h[1..];
    }
  }

  /** Filling in puts no separator at the end. */
  lemma {:induction false} FillEnd(h: string)
    requires h != "" && h[|h| - 1] != '/'
    ensures Fill(h) != "" && Fill(h)[|Fill(h)| - 1] != '/'
    decreases |h|
  {
    var lead, rest := FillSplits(h);
    if rest == "" {
      assert Fill(h) == lead + "" == lead;
    } else {
      FillEnd(rest);
      LastOfJoined(lead, Fill(rest));
    }
  }

  /** A pattern in normal form that begins with a literal is filled in to a legal path. */
  lemma FillKeepsShape(h: string)
    requires NormalShape(h) && !IsWildcard(h[0])
    ensures NormalShape(Fill(h))
  {
    ParentScanned(h);
    FillNoParent(h, true);
    ParentScanned(Fill(h));
    FillNoDouble(h);
    FillEnd(h);
    forall c | c in Fill(h) ensures c in h || c == 'z' || c == '/' { FillChars(h, c); }
    SecondFilled(h);
    NotRefusedFilled(h, Fill(h));
    hide HasParentSegment, NoDoubleSlash, ParentFrom, Fill, Refused;
  }

  lemma NotRefusedFilled(h: string, f: string)
    requires !Refused(h) && h != "" && f != "" && (forall c :: c in f ==> c in h || c == 'z' || c == '/')
    requires f[0] == h[0] && (|f| == 1 <==> |h| == 1) && (|h| > 1 ==> f[1] == if IsWildcard(h[1]) then 'z' else h[1])
    ensures !Refused(f)
  {
    forall k | 0 <= k < |f| ensures !Control(f[k]) {
      assert f[k] in f;
      if f[k] in h {
        var i :| 0 <= i < |h| && h[i] == f[k];
      }
    }
  }

  /** The first two characters cannot become a drive, a leading dot segment or a single dot. */
  lemma SecondFilled(h: string)
    requires h != "" && !IsWildcard(h[0]) && h[0] != '/'
    ensures var f := Fill(h);
      f[0] == h[0] && (|f| == 1 <==> |h| == 1) && (|h| > 1 ==> f[1] == if IsWildcard(h[1]) then 'z' else h[1])
  {
    assert Fill(h) == [h[0]] + Fill(h[1..]);
    FillStarts(h[1..]);
  }

  // ---------------------------------------------------------------- a legal path that skips the separator

  lemma LiteralAccepted(g: string, s: string)
    requires g != "" && !IsWildcard(g[0]) && !SlashDoubleStar(g) && Matches(Pieces(g[1..]), s)
    ensures Matches(Pieces(g), [g[0]] + s)
  {
    assert Pieces(g) == [Lit(g[0])] + Pieces(g[1..]);
    assert Pieces(g)[1..] == Pieces(g[1..]);
    assert ([g[0]] + s)[1..] == s;
  }

  lemma SkipAtStart(g: string, m: string)
    requires SlashDoubleStar(g) && !EndsAtFirst(g) && Matches(Pieces(AfterTail(g)), m)
    ensures Head(g) == "" && Matches(Pieces(g), m)
  {
    assert LiteralPrefix(g[1..]) == "";
    assert LiteralPrefix(g) == "/";
    assert AfterTail(g) == SkipSlash(g[3..]);
    assert Pieces(g)[1..] == Pieces(SkipSlash(g[3..]));
  }

  /** A text of the rest of a pattern may stand right after its head. */
  lemma {:induction false} SkipAccepted(g: string, m: string)
    requires !EndsAtFirst(g) && Matches(Pieces(AfterTail(g)), m)
    ensures Matches(Pieces(g), Head(g) + m)
    decreases |g|
  {
    hide Matches, Pieces, Head, AfterTail, LiteralPrefix, EndsAtFirst, Glued;
    if SlashDoubleStar(g) {
      SkipAtStart(g, m);
      assert Head(g) + m == m;
    } else {
      GluedTail(g);
      SameTail(g);
      SkipAccepted(g[1..], m);
      LiteralAccepted(g, Head(g[1..]) + m);
      assert Head(g) + m == [g[0]] + (Head(g[1..]) + m);
    }
  }

  /** The rest of the pattern, without the separator of a leading dot segment that would complete a parent segment. */
  function Joining(head: string, tail: string): string {
    if EndsInDot(head) && tail != "" && tail[0] == '.'
      && SlashDoubleStar(tail[1..]) then "." + SkipSlash(tail[4..]) else tail
  }

  lemma JoiningAccepted(head: string, tail: string)
    ensures Matches(Pieces(tail), Fill(Joining(head, tail)))
  {
    hide Pieces, Matches, Fill;
    if Joining(head, tail) == tail {
      FillAccepted(tail);
    } else {
      var rest := SkipSlash(tail[4..]);
      FillAccepted(rest);
      assert tail[1..][3..] == tail[4..];
      TailMatchesNothing(tail[1..], Fill(rest));
      DotThenFill(rest);
      LiteralMatched(tail, "." + Fill(rest));
      assert ("." + Fill(rest))[1..] == Fill(rest);
    }
  }

  /** A separator before two stars may stand for nothing. */
  lemma TailMatchesNothing(g: string, s: string)
    requires SlashDoubleStar(g) && Matches(Pieces(SkipSlash(g[3..])), s)
    ensures Matches(Pieces(g), s)
  {
    assert Pieces(g)[1..] == Pieces(SkipSlash(g[3..]));
  }

  lemma LiteralMatched(g: string, s: string)
    requires g != "" && !IsWildcard(g[0]) && !SlashDoubleStar(g)
    requires s != "" && s[0] == g[0] && Matches(Pieces(g[1..]), s[1..])
    ensures Matches(Pieces(g), s)
  {
    assert Pieces(g)[1..] == Pieces(g[1..]);
  }

  lemma DotThenFill(rest: string)
    ensures Fill("." + rest) == "." + Fill(rest)
  {
    assert ("." + rest)[1..] == rest;
  }

  lemma HeadPart(g: string)
    requires NormalShape(g) && !EndsAtFirst(g)
    ensures var k := |LiteralPrefix(g)|; k >= 2 && g[k - 1] == '/' && g[k - 2] != '/' && Head(g) != "."
  {
    hide HasParentSegment;
    var k := |LiteralPrefix(g)|;
    assert g[0] == LiteralPrefix(g)[0];
    assert k > 1 by { assert !Refused(g); }
    assert !DoubleSlashAt(g, k - 2);
    assert !StartsDotSlash(g);
    if k == 2 { assert Head(g) == [g[0]]; }
  }

  /** How a pattern that may skip is made up. */
  lemma Parts(g: string)
    requires NormalShape(g) && !EndsAtFirst(g)
    ensures var k, tail := |LiteralPrefix(g)|, AfterTail(g);
      && k >= 2 && g[k - 1] == '/' && g[k - 2] != '/' && !HasWildcard(Head(g)) && Head(g) != "."
      && tail != "" && tail[0] != '/' && tail == g[|g| - |tail|..] && |g| - |tail| >= k + 2
  {
    HeadPart(g);
    AfterTailStarts(g);
    hide NormalShape, Fill;
    FillStarts(AfterTail(g));
    assert forall c :: c in Head(g) ==> c in LiteralPrefix(g);
  }

  /** The rest as it is joined: it ends like the pattern, and inside it nothing is new. */
  ghost predicate Inside(g: string, t: string) {
    && t != "" && t[0] != '/' && t[|t| - 1] != '/' && '\\' !in t && NoDoubleSlash(t)
    && (forall j: nat :: 1 <= j < |t| ==> !ParentSegmentAt(t, j))
    && (forall c :: c in t ==> !Control(c))
  }

  lemma SuffixInside(g: string, n: nat)
    requires NormalShape(g) && n < |g| && g[n] != '/'
    ensures Inside(g, g[n..])
  {
    var t := g[n..];
    SuffixNoDouble(g, n);
    forall j: nat | 1 <= j < |t| ensures !ParentSegmentAt(t, j) {
      assert !ParentSegmentAt(g, n + j);
    }
    forall c | c in t ensures !Control(c) {
      var i :| 0 <= i < |t| && t[i] == c;
      assert g[n + i] == c;
    }
  }

  lemma DotInside(g: string, t: string)
    requires Inside(g, t)
    ensures Inside(g, "." + t)
  {
    ConsNoDouble('.', t);
    var d := "." + t;
    forall j: nat | 1 <= j < |d| ensures !ParentSegmentAt(d, j) {
      if j > 1 { assert !ParentSegmentAt(t, j - 1); }
    }
  }

  lemma RestInside(g: string, tail: string)
    requires NormalShape(g) && |tail| <= |g| && tail == g[|g| - |tail|..] && tail != "./**"
    requires tail != "" && tail[0] == '.' && SlashDoubleStar(tail[1..])
    ensures Inside(g, SkipSlash(tail[4..]))
  {
    assert tail[1..][1..] == tail[2..];
    assert |tail| == 4 ==> tail == "./**";
    var rest := SkipSlash(tail[4..]);
    var n := |g| - |rest|;
    assert tail[|tail| - 1] == g[|g| - 1];
    assert |tail| == 5 ==> tail[4] == tail[|tail| - 1];
    assert rest != "" && rest == g[n..];
    RestStarts(g, tail, n);
    hide NormalShape;
    SuffixInside(g, n);
  }

  lemma RestStarts(g: string, tail: string, n: nat)
    requires NoDoubleSlash(g) && 4 < |tail| <= |g| && tail == g[|g| - |tail|..]
      && n == |g| - |SkipSlash(tail[4..])| < |g|
    ensures g[n] != '/'
  {
    var m := |g| - |tail| + 4;
    assert g[m] == tail[4];
    assert !DoubleSlashAt(g, m);
  }

  lemma JoiningInside(g: string)
    requires NormalShape(g) && !EndsAtFirst(g) && !MeetsIllegally(Head(g), AfterTail(g))
    ensures var t := Joining(Head(g), AfterTail(g));
      Inside(g, t) && (EndsInDot(Head(g)) && t[0] == '.' ==> |t| > 1 && t[1] != '/')
        && (t[0] == ':' ==> AfterTail(g)[0] == ':')
  {
    var head, tail := Head(g), AfterTail(g);
    Parts(g);
    SuffixInside(g, |g| - |tail|);
    hide NormalShape;
    if EndsInDot(head) && tail[0] == '.' && SlashDoubleStar(tail[1..]) {
      RestInside(g, tail);
      DotInside(g, SkipSlash(tail[4..]));
    } else if EndsInDot(head) && tail[0] == '.' && |tail| > 1 {
      assert tail[1..][1..] == tail[2..];
    }
  }

  lemma JoinedNoParent(g: string, head: string, t: string)
    requires Inside(g, t) && head != "" && head[|head| - 1] != '/' && head != "."
    requires forall j: nat :: j < |head| ==> !ParentSegmentAt(head + "/", j)
    requires EndsInDot(head) && t[0] == '.' ==> |t| > 1 && t[1] != '/'
    ensures !HasParentSegment(head + t)
  {
    var s, n := head + t, |head|;
    forall j: nat | j < |s| ensures !ParentSegmentAt(s, j) {
      if j + 1 < n {
        assert !ParentSegmentAt(head + "/", j);
      } else if j > n {
        assert !ParentSegmentAt(t, j - n);
      }
    }
  }

  lemma HeadNoParent(g: string)
    requires NormalShape(g) && !EndsAtFirst(g)
    ensures forall j: nat :: j < |Head(g)| ==> !ParentSegmentAt(Head(g) + "/", j)
  {
    Parts(g);
    var k := |LiteralPrefix(g)|;
    assert Head(g) + "/" == g[..k];
    forall j: nat | j < |Head(g)| ensures !ParentSegmentAt(g[..k], j) {
      assert !ParentSegmentAt(g, j);
    }
  }

  lemma JoinedNoDouble(head: string, t: string)
    requires NoDoubleSlash(head) && NoDoubleSlash(t) && head != "" && head[|head| - 1] != '/'
    ensures NoDoubleSlash(head + t)
  {
    var s := head + t;
    forall k: nat | k < |s| ensures !DoubleSlashAt(s, k) {
      if k + 1 < |head| { assert !DoubleSlashAt(head, k); }
      else if k >= |head| { assert !DoubleSlashAt(t, k - |head|); }
    }
  }

  lemma JoinedNotRefused(head: string, t: string)
    requires !Refused(head) && head != "" && t != "" && (forall c :: c in t ==> !Control(c))
    requires !(|head| == 1 && AsciiLetter(head[0]) && t[0] == ':')
    ensures !Refused(head + t)
  {
    var s := head + t;
    forall k | 0 <= k < |s| ensures !Control(s[k]) {
      if k < |head| { assert s[k] == head[k]; } else { assert s[k] == t[k - |head|] && t[k - |head|] in t; }
    }
  }

  lemma Assembled(head: string, t: string)
    requires head != "" && t != "" && NoDoubleSlash(head + t) && !Refused(head + t) && !HasParentSegment(head + t)
    requires '\\' !in head && '\\' !in t && !StartsDotSlash(head) && head != "." && t[|t| - 1] != '/' && t[0] != '/'
    ensures NormalShape(head + t)
  {
    hide NoDoubleSlash, Refused, HasParentSegment;
    var s := head + t;
    assert s[|s| - 1] == t[|t| - 1] && s[0] == head[0];
    assert s[1] == if |head| > 1 then head[1] else t[0];
  }

  lemma JoinedShape(g: string)
    requires NormalShape(g) && !EndsAtFirst(g) && !MeetsIllegally(Head(g), AfterTail(g))
    ensures NormalShape(Head(g) + Joining(Head(g), AfterTail(g)))
  {
    var head, t := Head(g), Joining(Head(g), AfterTail(g));
    Parts(g);
    JoiningInside(g);
    HeadNoParent(g);
    JoinedNoParent(g, head, t);
    assert head <= g && forall i :: 0 <= i < |head| ==> head[i] == g[i];
    NotRefusedPrefix(g, head);
    SuffixOfPrefix(g, |head|);
    hide HasParentSegment, Joining, Refused, NoDoubleSlash, LiteralPrefix, SkipSlash;
    JoinedNoDouble(head, t);
    JoinedNotRefused(head, t);
    Assembled(head, t);
  }

  lemma SuffixOfPrefix(g: string, n: nat)
    requires NoDoubleSlash(g) && n <= |g|
    ensures NoDoubleSlash(g[..n])
  {
    forall k: nat | k < n ensures !DoubleSlashAt(g[..n], k) {
      assert !DoubleSlashAt(g, k);
    }
  }

  lemma ConsFill(c: char, h: string)
    requires !IsWildcard(c) && !(c == '/' && DoubleStar(h))
    ensures Fill([c] + h) == [c] + Fill(h)
  {
    assert ([c] + h)[1..] == h;
  }

  lemma {:induction false} FillAfterLiteral(head: string, t: string)
    requires !HasWildcard(head) && (head != "" ==> head[|head| - 1] != '/')
    ensures Fill(head + t) == head + Fill(t)
  {
    hide Fill;
    if head == "" {
      assert head + t == t && head + Fill(t) == Fill(t);
    } else {
      var rest := head[1..];
      assert head[0] in head;
      if |head| > 1 { assert head[1] in head && (rest + t)[0] == head[1]; }
      assert forall c :: c in rest ==> c in head;
      FillAfterLiteral(rest, t);
      ConsFill(head[0], rest + t);
      assert head + t == [head[0]] + (rest + t);
      assert head + Fill(t) == [head[0]] + (rest + Fill(t));
    }
  }

  /** The legal path that skips the separator, and its partner. */
  lemma LegalSkip(g: string) returns (path: string)
    requires NormalShape(g) && !SafeOnPaths(g)
    ensures NormalShape(path) && Matches(Pieces(g), path)
    ensures var b := path + "*"; NormalShape(b) && EndsAtFirst(b) && Matches(Pieces(b), path) && !PatternsOverlap(g, b)
  {
    var head, tail := Head(g), AfterTail(g);
    var t := Joining(head, tail);
    Parts(g);
    JoinedShape(g);
    JoiningInside(g);
    assert head[0] in head && (head + t)[0] == head[0];
    FillKeepsShape(head + t);
    FillAfterLiteral(head, t);
    path := head + Fill(t);
    JoiningAccepted(head, tail);
    SkipAccepted(g, Fill(t));
    FillStarts(t);
    StarKeepsShape(path);
    assert path[..|head|] == head;
    assert !HasWildcard(path) by { assert Fill(head + t) == path; }
    hide Fill, Joining;
    SkippedPartnerMissed(g, path);
  }

  /**
   * A legal path that a safe pattern accepts begins with its literal prefix, or is that prefix without its separator.
   */
  lemma SafePathBegins(g: string, path: string)
    requires SafeOnPaths(g) && NormalShape(path) && Matches(Pieces(g), path)
    ensures Begins(g, LiteralPrefix(g), path)
  {
    if EndsAtFirst(g) {
      AcceptedBegins(g, path);
    } else {
      BeginsOrSkips(g, path);
      if !(LiteralPrefix(g) <= path) { SkipsIllegally(Head(g), AfterTail(g), path); }
    }
  }

  /** Two safe patterns that accept one legal path are reported as overlapping. */
  lemma SharedPathOverlaps(a: string, b: string, path: string)
    requires SafeOnPaths(a) && SafeOnPaths(b) && NormalShape(path)
    requires Matches(Pieces(a), path) && Matches(Pieces(b), path)
    ensures PatternsOverlap(a, b)
  {
    SafePathBegins(a, path);
    SafePathBegins(b, path);
    BegunTextOverlaps(a, b, path);
  }

  /** On legal paths: no safe partner of a pattern is missed if and only if the pattern is safe itself. */
  lemma OverlapExactOnPaths(g: string)
    requires NormalShape(g)
    ensures NeverMissedOnPaths(g) <==> SafeOnPaths(g)
  {
    if SafeOnPaths(g) {
      forall b, path | NormalShape(b) && NormalShape(path) && SafeOnPaths(b) && Matches(Pieces(g), path)
        && Matches(Pieces(b), path)
        ensures PatternsOverlap(g, b)
      {
        SharedPathOverlaps(g, b, path);
      }
    } else {
      var path := LegalSkip(g);
    }
  }

  /** Soundness for raw strings: if a path falls inside both globs, `globsOverlap` reports it. */
  lemma OverlapSound(a: string, b: string, path: string)
    requires MatchesGlob(path, a) == Ok(true) && MatchesGlob(path, b) == Ok(true)
    requires SafeOnPaths(Normalized(a).value) && SafeOnPaths(Normalized(b).value)
    ensures GlobsOverlap(a, b) == Ok(true)
  {
    NormalizedIdempotent(path);
    hide NormalShape, Normalized;
    SharedPathOverlaps(Normalized(a).value, Normalized(b).value, Normalized(path).value);
  }
}
