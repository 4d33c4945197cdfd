/**
 * Normalising a path keeps it (shared/protocol/src/scope.ts:31-46): the normal form has the segments of the path, and a
 * path is refused exactly for what it is, not for how it is written.
 */
module PathSegments {
  import opened Bridge
  import opened Scope

  predicate IsSeparator(c: char) {
    c == '/' || c == '\\'
  }

  /** The texts between separators, empty ones included. */
  function Segments(p: string): (r: seq<string>)
    ensures r != []
  {
    if p == "" then [""]
    else
      var rest := Segments(p[1..]);
      if IsSeparator(p[0]) then [""] + rest else [[p[0]] + rest[0]] + rest[1..]
  }

  function NonEmpty(segments: seq<string>): seq<string> {
    if segments == [] then [] else (if segments[0] == "" then [] else [segments[0]]) + NonEmpty(segments[1..])
  }

  function WithoutLeadingDots(segments: seq<string>): seq<string> {
    if segments != [] && segments[0] == "." then WithoutLeadingDots(segments[1..]) else segments
  }

  /** The segments that make up the path. */
  function PathOf(p: string): seq<string> {
    WithoutLeadingDots(NonEmpty(Segments(p)))
  }

  function Joined(segments: seq<string>): string {
    if segments == [] then "" else if |segments| == 1 then segments[0] else segments[0] + ("/" + Joined(segments[1..]))
  }

  predicate NamesDrive(segment: string) {
    |segment| >= 2 && AsciiLetter(segment[0]) && segment[1] == ':'
  }

  /** A repository-relative path that names something, does not climb, and contains no control character. */
  ghost predicate Acceptable(p: string) {
    && PathOf(p) != [] && !IsSeparator(p[0]) && ".." !in PathOf(p) && !NamesDrive(PathOf(p)[0])
    && forall c :: c in p ==> !Control(c)
  }

  // ---------------------------------------------------------------- each step keeps the segments

  lemma {:induction false} SlashKeepsSegments(p: string)
    ensures Segments(SlashForBackslash(p)) == Segments(p)
  {
    if p != "" {
      var r := SlashForBackslash(p);
      assert r[1..] == SlashForBackslash(p[1..]);
      SlashKeepsSegments(p[1..]);
    }
  }

  lemma {:induction false} SinglesKeepSegments(q: string)
    ensures var a, b := Segments(SingleSlashes(q)), Segments(q); a[0] == b[0] && NonEmpty(a[1..]) == NonEmpty(b[1..])
  {
    if |q| >= 2 {
      SinglesKeepSegments(q[1..]);
      var t := SingleSlashes(q[1..]);
      if !(q[0] == '/' && q[1] == '/') { assert ([q[0]] + t)[1..] == t; }
    }
  }

  lemma DotSegment(q: string)
    requires StartsDotSlash(q)
    ensures PathOf(q) == PathOf(q[2..])
  {
    var r := q[2..];
    assert q[1..][1..] == r;
    assert Segments(q[1..]) == [""] + Segments(r);
    assert ([""] + Segments(r))[1..] == Segments(r) && ['.'] + "" == ".";
    assert Segments(q) == ["."] + Segments(r);
    assert (["."] + Segments(r))[1..] == Segments(r);
    assert NonEmpty(Segments(q)) == ["."] + NonEmpty(Segments(r));
    assert (["."] + NonEmpty(Segments(r)))[1..] == NonEmpty(Segments(r));
  }

  lemma {:induction false} DropKeepsPath(q: string)
    ensures PathOf(DropDotSlash(q)) == PathOf(q)
  {
    hide PathOf;
    if StartsDotSlash(q) {
      DotSegment(q);
      DropKeepsPath(q[2..]);
    }
  }

  lemma {:induction false} DropKeepsChars(q: string, c: char)
    requires c in q && c != '.' && c != '/'
    ensures c in DropDotSlash(q)
  {
    if StartsDotSlash(q) {
      assert q == ['.', '/'] + q[2..];
      DropKeepsChars(q[2..], c);
    }
  }

  lemma {:induction false} DropKeepsFirst(q: string)
    requires NoDoubleSlash(q) && q != "" && DropDotSlash(q) != ""
    ensures DropDotSlash(q)[0] == '/' <==> q[0] == '/'
  {
    if StartsDotSlash(q) {
      var r := q[2..];
      assert !DoubleSlashAt(q, 1);
      forall k: nat | k < |r| ensures !DoubleSlashAt(r, k) { assert !DoubleSlashAt(q, k + 2); }
      if r != "" { DropKeepsFirst(r); }
    }
  }

  lemma {:induction false} SinglesKeepChars(q: string)
    ensures forall c :: c in q ==> c in SingleSlashes(q)
  {
    if |q| >= 2 {
      SinglesKeepChars(q[1..]);
      assert q == [q[0]] + q[1..];
    }
  }

  lemma {:induction false} SegmentsBeforeSlash(x: string)
    ensures Segments(x + "/") == Segments(x) + [""]
  {
    if x == "" {
      assert ("" + "/")[1..] == "";
    } else {
      assert (x + "/")[1..] == x[1..] + "/";
      SegmentsBeforeSlash(x[1..]);
    }
  }

  lemma {:induction false} NonEmptyLast(segments: seq<string>)
    ensures NonEmpty(segments + [""]) == NonEmpty(segments)
  {
    if segments != [] {
      assert (segments + [""])[1..] == segments[1..] + [""];
      NonEmptyLast(segments[1..]);
    } else {
      assert [""][1..] == [];
    }
  }

  lemma {:induction false} TrimKeepsSegments(q: string)
    ensures Segments(DropTrailing(q))[0] == Segments(q)[0]
    ensures NonEmpty(Segments(DropTrailing(q))) == NonEmpty(Segments(q))
  {
    if q != "" && q[|q| - 1] == '/' {
      var x := q[..|q| - 1];
      assert q == x + "/";
      SegmentsBeforeSlash(x);
      NonEmptyLast(Segments(x));
      TrimKeepsSegments(x);
    }
  }

  // ---------------------------------------------------------------- the segments of a trimmed text

  lemma {:induction false} SegmentsNamed(x: string)
    requires NoDoubleSlash(x) && '\\' !in x && x != "" && x[|x| - 1] != '/'
    ensures Segments(x)[0] == "" <==> x[0] == '/'
    ensures forall i :: 1 <= i < |Segments(x)| ==> Segments(x)[i] != ""
  {
    var y := x[1..];
    if y != "" {
      assert !DoubleSlashAt(x, 0);
      forall k: nat | k < |y| ensures !DoubleSlashAt(y, k) { assert !DoubleSlashAt(x, k + 1); }
      SegmentsNamed(y);
    }
  }

  lemma {:induction false} AllNonEmpty(segments: seq<string>)
    requires forall i :: 0 <= i < |segments| ==> segments[i] != ""
    ensures NonEmpty(segments) == segments
  {
    if segments != [] { AllNonEmpty(segments[1..]); }
  }

  lemma {:induction false} JoinedSegments(x: string)
    requires '\\' !in x
    ensures Joined(Segments(x)) == x
  {
    if x != "" {
      JoinedSegments(x[1..]);
      var rest := Segments(x[1..]);
      if x[0] == '/' {
        assert ([""] + rest)[1..] == rest;
      } else if |rest| > 1 {
        var all := [[x[0]] + rest[0]] + rest[1..];
        assert all[1..] == rest[1..];
        assert [x[0]] + rest[0] + ("/" + Joined(rest[1..])) == [x[0]] + (rest[0] + ("/" + Joined(rest[1..])));
      }
      assert x == [x[0]] + x[1..];
    }
  }

  lemma DotFirst(x: string)
    ensures Segments(x)[0] == "." <==> x != "" && x[0] == '.' && (|x| == 1 || IsSeparator(x[1]))
  {
    if x != "" && !IsSeparator(x[0]) { NothingFirst(x[1..]); }
  }

  lemma NothingFirst(x: string)
    ensures Segments(x)[0] == "" <==> x == "" || IsSeparator(x[0])
  {
  }

  lemma DriveFirst(x: string)
    ensures NamesDrive(Segments(x)[0]) <==> |x| >= 2 && AsciiLetter(x[0]) && x[1] == ':'
  {
    if |x| >= 2 && !IsSeparator(x[0]) && !IsSeparator(x[1]) {
      assert Segments(x)[0] == [x[0]] + ([x[1]] + Segments(x[1..][1..])[0]);
    } else if x != "" && !IsSeparator(x[0]) {
      NothingFirst(x[1..]);
    }
  }

  /** Scanning for a parent segment; `start` says whether a segment begins here. */
  predicate ParentFrom(h: string, start: bool) {
    && |h| >= 2
    && ((start && h[0] == '.' && h[1] == '.' && (|h| == 2 || h[2] == '/')) || ParentFrom(h[1..], h[0] == '/'))
  }

  lemma {:induction false} ParentScan(h: string, i: nat)
    requires i <= |h|
    ensures ParentFrom(h[i..], i == 0 || h[i - 1] == '/') <==> exists k: nat :: i <= k < |h| && ParentSegmentAt(h, k)
    decreases |h| - i
  {
    if |h| - i >= 2 {
      ParentScan(h, i + 1);
      assert h[i..][1..] == h[i + 1..] && h[i..][0] == h[i] && h[i..][1] == h[i + 1];
      assert |h| - i > 2 ==> h[i..][2] == h[i + 2];
      assert ParentFrom(h[i..], i == 0 || h[i - 1] == '/') <==>
        ParentSegmentAt(h, i) || ParentFrom(h[i + 1..], h[i] == '/');
    }
  }

  lemma ParentScanned(h: string)
    ensures HasParentSegment(h) <==> ParentFrom(h, true)
  {
    ParentScan(h, 0);
    assert h[0..] == h;
  }

  lemma ParentFirst(x: string)
    ensures Segments(x)[0] == ".." <==> |x| >= 2 && x[0] == '.' && x[1] == '.' && (|x| == 2 || IsSeparator(x[2]))
  {
    if x != "" && !IsSeparator(x[0]) {
      assert Segments(x)[0] == [x[0]] + Segments(x[1..])[0];
      DotFirst(x[1..]);
      assert Segments(x)[0] == ".." <==> x[0] == '.' && Segments(x[1..])[0] == ".";
    }
  }

  lemma {:induction false} ParentSegments(h: string, start: bool)
    requires '\\' !in h
    ensures ParentFrom(h, start) <==> (start && Segments(h)[0] == "..") || ".." in Segments(h)[1..]
  {
    ParentFirst(h);
    if h != "" {
      ParentSegments(h[1..], h[0] == '/');
      var rest := Segments(h[1..]);
      if h[0] == '/' { assert Segments(h)[1..] == rest && rest == [rest[0]] + rest[1..]; }
    }
  }

  // ---------------------------------------------------------------- the whole

  /** The text after the first two steps. */
  function Squeezed(p: string): string {
    DropDotSlash(SingleSlashes(SlashForBackslash(p)))
  }

  lemma SqueezingKeepsPath(p: string)
    ensures PathOf(Squeezed(p)) == PathOf(p)
  {
    hide DropDotSlash, SingleSlashes, SlashForBackslash;
    var s := SlashForBackslash(p);
    SlashKeepsSegments(p);
    SinglesKeepSegments(s);
    DropKeepsPath(SingleSlashes(s));
  }

  lemma SqueezedShape(p: string)
    ensures '\\' !in Squeezed(p) && NoDoubleSlash(Squeezed(p)) && !StartsDotSlash(Squeezed(p))
    ensures p != "" && Squeezed(p) != "" ==> (Squeezed(p)[0] == '/' <==> IsSeparator(p[0]))
  {
    hide DropDotSlash, SingleSlashes, SlashForBackslash;
    var q := SingleSlashes(SlashForBackslash(p));
    var n :| 0 <= n <= |q| && DropDotSlash(q) == q[n..];
    SliceShape(q, n, DropDotSlash(q));
    if q != "" && DropDotSlash(q) != "" { DropKeepsFirst(q); }
  }

  lemma SqueezingKeepsChar(p: string, c: char)
    requires c in p && c != '.' && !IsSeparator(c)
    ensures c in Squeezed(p)
  {
    hide DropDotSlash, SingleSlashes, SlashForBackslash;
    var s := SlashForBackslash(p);
    var k :| 0 <= k < |p| && p[k] == c;
    assert s[k] == c;
    SinglesKeepChars(s);
    DropKeepsChars(SingleSlashes(s), c);
  }

  lemma SuffixChar(q: string, r: string, c: char)
    requires (exists n :: 0 <= n <= |q| && r == q[n..]) && c in r
    ensures c in q
  {
    var n :| 0 <= n <= |q| && r == q[n..];
    var m :| 0 <= m < |r| && r[m] == c;
    assert q[n + m] == c;
  }

  lemma SqueezedCharIsThere(p: string, c: char)
    requires c in Squeezed(p) && c != '/'
    ensures c in p
  {
    hide DropDotSlash, SingleSlashes, SlashForBackslash;
    var s := SlashForBackslash(p);
    var q := SingleSlashes(s);
    SuffixChar(q, DropDotSlash(q), c);
    assert c in s;
    var k :| 0 <= k < |s| && s[k] == c;
    assert c == p[k];
  }

  lemma SqueezedControls(p: string)
    ensures (exists c :: c in p && Control(c)) <==> (exists c :: c in Squeezed(p) && Control(c))
  {
    hide Squeezed;
    if c :| c in p && Control(c) { SqueezingKeepsChar(p, c); }
    if c :| c in Squeezed(p) && Control(c) { SqueezedCharIsThere(p, c); }
  }

  /** A text in which no segment is empty and none to be dropped stands first is joined from its path. */
  lemma NamedPath(x: string)
    requires NoDoubleSlash(x) && '\\' !in x && x != "" && x[0] != '/' && x[|x| - 1] != '/'
    requires x != "." && !StartsDotSlash(x)
    ensures PathOf(x) == Segments(x) && Joined(Segments(x)) == x
  {
    hide Segments, Joined, NonEmpty;
    SegmentsNamed(x);
    AllNonEmpty(Segments(x));
    JoinedSegments(x);
    DotFirst(x);
  }

  lemma ParentInPath(x: string)
    requires '\\' !in x
    ensures HasParentSegment(x) <==> ".." in Segments(x)
  {
    hide ParentFrom, Segments, HasParentSegment;
    ParentScanned(x);
    ParentSegments(x, true);
    assert Segments(x) == [Segments(x)[0]] + Segments(x)[1..];
  }

  lemma NoPath(x: string)
    requires x == "" || x == "."
    ensures PathOf(x) == []
  {
    assert "."[1..] == "" && ['.'] + "" == ".";
    assert Segments("") == [""];
    assert [""][1..] == [];
    assert Segments(".") == [['.'] + ""] + [];
    assert ["."][1..] == [] && [""][1..] == [];
  }

  /** What is left after trimming is the path, and its segments are those of the result. */
  lemma TrimmedPath(p: string, out: string)
    requires out == Squeezed(p) && p != "" && out != "" && out[0] != '/'
    ensures PathOf(DropTrailing(out)) == PathOf(p)
    ensures var x := DropTrailing(out);
      x != "" && x != "." ==> Segments(x) == PathOf(p) && Joined(PathOf(p)) == x && Segments(out)[0] == PathOf(p)[0]
  {
    hide Segments, Joined, NonEmpty, Squeezed, DropTrailing;
    var x := DropTrailing(out);
    SqueezingKeepsPath(p);
    SqueezedShape(p);
    TrimKeepsSegments(out);
    SliceShape(out, 0, x);
    if x != "" && x != "." { NamedPath(x); }
  }

  lemma RefusedMeans(p: string, out: string)
    requires p != "" && out == Squeezed(p) && out != ""
    ensures Refused(out) <==> IsSeparator(p[0]) || NamesDrive(Segments(out)[0]) || exists c :: c in p && Control(c)
  {
    hide Squeezed, Segments;
    SqueezedShape(p);
    SqueezedControls(p);
    DriveFirst(out);
    if c :| c in out && Control(c) {
      var k :| 0 <= k < |out| && out[k] == c;
    }
  }

  lemma NormalizedBy(p: string)
    ensures var out, x := Squeezed(p), DropTrailing(Squeezed(p));
      Normalized(p) ==
        if p == "" || Refused(out) || x == "" || x == "." || HasParentSegment(x) then Err(INVALID_ARGUMENT) else Ok(x)
  {
  }

  /** `normalizePath` accepts exactly these paths, and answers with their segments joined by single separators. */
  lemma NormalizingKeepsPath(p: string)
    ensures Normalized(p).Ok? <==> p != "" && Acceptable(p)
    ensures Normalized(p).Ok? ==>
      Normalized(p).value == Joined(PathOf(p)) && Segments(Normalized(p).value) == PathOf(p)
    ensures Normalized(p).Err? ==> Normalized(p) == Err(INVALID_ARGUMENT)
  {
    hide Normalized, Refused, DropTrailing, HasParentSegment, Segments, PathOf, Squeezed, Joined, NamesDrive, Control;
    var out, x := Squeezed(p), DropTrailing(Squeezed(p));
    NormalizedBy(p);
    if p != "" {
      SqueezingKeepsPath(p);
      SqueezedShape(p);
      if out == "" {
        NoPath(out);
        TrimmedShape(out);
      } else {
        RefusedMeans(p, out);
        if out[0] != '/' {
          TrimmedPath(p, out);
          if x == "" || x == "." { NoPath(x); } else { ParentInPath(x); TrimmedShape(out); }
        }
      }
    }
  }

  lemma TrimmedShape(out: string)
    ensures DropTrailing(out) <= out
    ensures '\\' !in out ==> '\\' !in DropTrailing(out)
  {
    SliceShape(out, 0, DropTrailing(out));
  }
}
