/**
 * Write-scope globs (shared/protocol/src/scope.ts).
 *
 * A `char` is a Unicode code point; up to U+FFFF that is also the code unit the program sees. Functions that
 * take raw strings normalise them first and fail where the program throws.
 */
module Scope {
  import opened Bridge
  import Text

  // ---------------------------------------------------------------- normalizePath

  function SlashForBackslash(p: string): (r: string)
    ensures |r| == |p| && '\\' !in r
    ensures forall k :: 0 <= k < |p| ==> r[k] == if p[k] == '\\' then '/' else p[k]
  {
    if p == "" then ""
    else [if p[0] == '\\' then '/' else p[0]] + SlashForBackslash(p[1..])
  }

  predicate DoubleSlashAt(p: string, k: nat) {
    k + 1 < |p| && p[k] == '/' && p[k + 1] == '/'
  }

  predicate NoDoubleSlash(p: string) {
    forall k: nat :: k < |p| ==> !DoubleSlashAt(p, k)
  }

  /** The characters between the separators, in order. */
  function WithoutSlashes(p: string): string {
    if p == "" then "" else (if p[0] == '/' then "" else [p[0]]) + WithoutSlashes(p[1..])
  }

  /** Every run of separators becomes one separator. */
  function SingleSlashes(p: string): (r: string)
    ensures forall c :: c in r ==> c in p
    ensures NoDoubleSlash(r)
    ensures p != "" ==> r != "" && r[0] == p[0]
    ensures NoDoubleSlash(p) ==> r == p
    ensures WithoutSlashes(r) == WithoutSlashes(p)
  {
    if |p| < 2 then p
    else
      assert p == [p[0]] + p[1..];
      assert forall k: nat :: DoubleSlashAt(p[1..], k) ==> DoubleSlashAt(p, k + 1);
      if p[0] == '/' && p[1] == '/' then
        assert DoubleSlashAt(p, 0);
        SingleSlashes(p[1..])
      else
        var t := SingleSlashes(p[1..]);
        assert forall k: nat :: DoubleSlashAt([p[0]] + t, k) ==> k == 0 || DoubleSlashAt(t, k - 1);
        [p[0]] + t
  }

  predicate StartsDotSlash(p: string) {
    |p| >= 2 && p[0] == '.' && p[1] == '/'
  }

  /** Drop every leading "./". */
  function DropDotSlash(p: string): (r: string)
    ensures exists n :: 0 <= n <= |p| && r == p[n..]
    ensures !StartsDotSlash(r)
    ensures !StartsDotSlash(p) ==> r == p
  {
    if StartsDotSlash(p) then
      var r := DropDotSlash(p[2..]);
      assert exists n :: 0 <= n <= |p| && r == p[n..] by {
        var n :| 0 <= n <= |p[2..]| && r == p[2..][n..];
        assert p[2..][n..] == p[n + 2..];
      }
      r
    else
      assert p == p[0..];
      p
  }

  /** Drop every trailing separator. */
  function DropTrailing(p: string): (r: string)
    ensures r <= p
    ensures r != "" ==> r[|r| - 1] != '/'
    ensures (p != "" ==> p[|p| - 1] != '/') ==> r == p
  {
    if p != "" && p[|p| - 1] == '/' then DropTrailing(p[..|p| - 1]) else p
  }

  predicate AsciiLetter(c: char) {
    'a' <= c <= 'z' || 'A' <= c <= 'Z'
  }

  predicate Control(c: char) {
    c as int <= 0x1f || c as int == 0x7f
  }

  /** A `..` segment begins at `k`. */
  predicate ParentSegmentAt(p: string, k: nat) {
    && k + 2 <= |p|
    && p[k] == '.' && p[k + 1] == '.'
    && (k == 0 || p[k - 1] == '/')
    && (k + 2 == |p| || p[k + 2] == '/')
  }

  predicate HasParentSegment(p: string) {
    exists k: nat :: k < |p| && ParentSegmentAt(p, k)
  }

  /** Absolute, drive-qualified, or containing a control character. */
  predicate Refused(p: string) {
    || (p != "" && p[0] == '/')
    || (|p| >= 2 && AsciiLetter(p[0]) && p[1] == ':')
    || exists k :: 0 <= k < |p| && Control(p[k])
  }

  function Normalized(p: string): Result<string> {
    if p == "" then Err(INVALID_ARGUMENT)
    else
      var out := DropDotSlash(SingleSlashes(SlashForBackslash(p)));
      if Refused(out) then Err(INVALID_ARGUMENT)
      else
        var trimmed := DropTrailing(out);
        if trimmed == "" || trimmed == "." then Err(INVALID_ARGUMENT)
        else if HasParentSegment(trimmed) then Err(INVALID_ARGUMENT)
        else Ok(trimmed)
  }

  /** What a normal form looks like, said without running the normaliser. */
  ghost predicate NormalShape(p: string) {
    && p != "" && p != "."
    && '\\' !in p
    && NoDoubleSlash(p)
    && !StartsDotSlash(p)
    && !Refused(p)
    && p[|p| - 1] != '/'
    && !HasParentSegment(p)
  }

  /** `normalizePath` is idempotent, and its results are exactly the strings of normal shape. */
  lemma NormalizedIdempotent(p: string)
    ensures Normalized(p).Ok? ==> NormalShape(Normalized(p).value) && Normalized(Normalized(p).value) == Normalized(p)
    ensures Normalized(p) == Ok(p) <==> NormalShape(p)
  {
    if NormalShape(p) {
      NormalShapeIsFixed(p);
    }
    if Normalized(p).Ok? {
      NormalizedHasShape(p);
      NormalShapeIsFixed(Normalized(p).value);
    }
  }

  lemma NormalizedHasShape(p: string)
    requires Normalized(p).Ok?
    ensures NormalShape(Normalized(p).value)
  {
    hide Refused, HasParentSegment, NoDoubleSlash, NormalShape;
    var single := SingleSlashes(SlashForBackslash(p));
    var out := DropDotSlash(single);
    var n :| 0 <= n <= |single| && out == single[n..];
    TrimmedHasShape(single, n, out, DropTrailing(out));
  }

  lemma TrimmedHasShape(single: string, n: nat, out: string, r: string)
    requires n <= |single| && out == single[n..] && r <= out && '\\' !in single && NoDoubleSlash(single)
    requires !StartsDotSlash(out) && !Refused(out) && r != "" && r != "." && r[|r| - 1] != '/' && !HasParentSegment(r)
    ensures NormalShape(r)
  {
    hide Refused, HasParentSegment, NoDoubleSlash;
    assert r == single[n..n + |r|];
    SliceShape(single, n, r);
    NotRefusedPrefix(out, r);
    assert forall k :: 0 <= k < |r| ==> r[k] == out[k];
  }

  /** A slice has no character and no double separator that the whole does not have. */
  lemma SliceShape(p: string, n: nat, r: string)
    requires n + |r| <= |p| && r == p[n..n + |r|]
    ensures '\\' !in p ==> '\\' !in r
    ensures NoDoubleSlash(p) ==> NoDoubleSlash(r)
  {
    forall k: nat | k < |r| && DoubleSlashAt(r, k) ensures DoubleSlashAt(p, n + k) {
      assert r[k] == p[n + k] && r[k + 1] == p[n + k + 1];
    }
  }

  lemma NotRefusedPrefix(p: string, r: string)
    requires r <= p && !Refused(p)
    ensures !Refused(r)
  {
    assert forall k :: 0 <= k < |r| ==> r[k] == p[k];
  }

  lemma NormalShapeIsFixed(p: string)
    requires NormalShape(p)
    ensures Normalized(p) == Ok(p)
  {
    assert SlashForBackslash(p) == p;
    assert DropDotSlash(SingleSlashes(p)) == p;
  }

  /** The loops of `normalizePath`. */
  method NormalizePath(p: string) returns (r: Result<string>)
    ensures r == Normalized(p)
  {
    if |p| == 0 { return Err(INVALID_ARGUMENT); }
    var out := SingleSlashes(SlashForBackslash(p));
    ghost var start := out;
    while StartsDotSlash(out)
      invariant DropDotSlash(out) == DropDotSlash(start)
      decreases |out|
    {
      out := out[2..];
    }
    if Refused(out) { return Err(INVALID_ARGUMENT); }
    ghost var untrimmed := out;
    while |out| > 0 && out[|out| - 1] == '/'
      invariant DropTrailing(out) == DropTrailing(untrimmed)
      decreases |out|
    {
      out := out[..|out| - 1];
    }
    if |out| == 0 || out == "." { return Err(INVALID_ARGUMENT); }
    if HasParentSegment(out) { return Err(INVALID_ARGUMENT); }
    return Ok(out);
  }

  /** The plainest path there is. */
  lemma NormalA()
    ensures Normalized("a") == Ok("a")
  {
    NormalShapeIsFixed("a");
  }
}
