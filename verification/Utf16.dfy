/** JavaScript strings: sequences of UTF-16 code units, surrogates included. */
module Utf16 {
  type Unit = u: int | 0 <= u < 0x10000
  type Text16 = seq<Unit>

  predicate High(u: Unit) {
    0xd800 <= u < 0xdc00
  }

  predicate Low(u: Unit) {
    0xdc00 <= u < 0xe000
  }

  /** The first code point of a text, one unit or a surrogate pair. */
  function FirstCodePoint(s: Text16): (r: Text16)
    requires s != []
    ensures 1 <= |r| <= 2 && r <= s
  {
    if |s| >= 2 && High(s[0]) && Low(s[1]) then s[..2] else s[..1]
  }

  /** The code points of a text, as iteration over a string yields them. */
  function CodePoints(s: Text16): seq<Text16> {
    if s == [] then [] else [FirstCodePoint(s)] + CodePoints(s[|FirstCodePoint(s)|..])
  }

  /** A surrogate pair, or a unit that is not a surrogate. */
  predicate IsScalar(p: Text16) {
    || (|p| == 2 && High(p[0]) && Low(p[1]))
    || (|p| == 1 && !High(p[0]) && !Low(p[0]))
  }

  /** No unpaired surrogate. */
  predicate WellFormed(s: Text16) {
    forall p :: p in CodePoints(s) ==> IsScalar(p)
  }

  function Concat(texts: seq<Text16>): Text16 {
    if texts == [] then [] else texts[0] + Concat(texts[1..])
  }

  lemma {:induction false} ConcatPlus(a: seq<Text16>, b: seq<Text16>)
    ensures Concat(a + b) == Concat(a) + Concat(b)
  {
    if a == [] {
      assert a + b == b;
    } else {
      assert (a + b)[1..] == a[1..] + b;
      ConcatPlus(a[1..], b);
    }
  }

  lemma {:induction false} ConcatCodePoints(s: Text16)
    ensures Concat(CodePoints(s)) == s
  {
    if s != [] {
      var p := FirstCodePoint(s);
      ConcatCodePoints(s[|p|..]);
      assert CodePoints(s)[1..] == CodePoints(s[|p|..]);
    }
  }

  /** Scalars put together are read back as the same code points. */
  lemma {:induction false} CodePointsOfScalars(points: seq<Text16>)
    requires forall p :: p in points ==> IsScalar(p)
    ensures CodePoints(Concat(points)) == points
  {
    if points != [] {
      var p, rest := points[0], Concat(points[1..]);
      assert p in points;
      CodePointsOfScalars(points[1..]);
      assert FirstCodePoint(p + rest) == p;
      assert (p + rest)[|p|..] == rest;
    }
  }
}
