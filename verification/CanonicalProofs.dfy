/**
 * Canonical JSON is injective up to the order of keys (shared/web-audit/src/model.ts:157-165,
 * shared/control-plane/src/idempotency.ts:23-30).
 */
module CanonicalProofs {
  import opened Bridge
  import opened Utf16
  import opened CanonicalJson

  // ---------------------------------------------------------------- strings can be read back

  function Unhex4(t: Text16): int
    requires |t| == 4
  {
    4096 * Unhex(t[0]) + 256 * Unhex(t[1]) + 16 * Unhex(t[2]) + Unhex(t[3])
  }

  function LongForm(u: Unit): Unit {
    if u == 0x62 then 8 else if u == 0x74 then 9 else if u == 0x6e then 10 else if u == 0x66 then 12 else if u == 0x72
      then 13 else u
  }

  function Prefixed(u: int, r: Option<(Text16, Text16)>): Option<(Text16, Text16)> {
    if r.None? || !(0 <= u < 0x10000) then None else Some(([u] + r.value.0, r.value.1))
  }

  /** Read the rest of a JSON string up to its closing quote: the text, and what follows. */
  function ReadString(t: Text16): Option<(Text16, Text16)> {
    if t == [] then None
    else if t[0] == QUOTE then Some(([], t[1..]))
    else if t[0] != BACKSLASH then Prefixed(t[0], ReadString(t[1..]))
    else if |t| < 2 then None
    else if t[1] != LETTER_U then Prefixed(LongForm(t[1]), ReadString(t[2..]))
    else if |t| < 6 then None
    else Prefixed(Unhex4(t[2..6]), ReadString(t[6..]))
  }

  lemma HexDigit(d: int)
    requires 0 <= d < 16
    ensures Unhex(Hex(d)) == d
  {
  }

  lemma HexRoundTrip(u: Unit)
    ensures Unhex4(Hex4(u)) == u
  {
    var a := u / 16;
    var b := a / 16;
    assert b == u / 256 && b / 16 == u / 4096;
    HexDigit(u / 4096);
    HexDigit(u / 256 % 16);
    HexDigit(u / 16 % 16);
    HexDigit(u % 16);
    hide Hex, Unhex;
  }

  lemma ReadEscape(u: Unit, t: Text16)
    ensures ReadString(Escape(u) + t) == Prefixed(u, ReadString(t))
  {
    var e := Escape(u) + t;
    if ShortEscape(u).Some? {
      assert e[2..] == t;
    } else if u < 0x20 || High(u) || Low(u) {
      HexRoundTrip(u);
      assert e[2..6] == Hex4(u) && e[6..] == t;
    } else {
      assert e[1..] == t;
    }
  }

  lemma {:induction false} ReadEscaped(s: Text16, t: Text16)
    ensures ReadString(EscapeAll(s) + [QUOTE] + t) == Some((s, t))
  {
    hide Escape, ReadString;
    if s == [] {
      assert EscapeAll(s) + [QUOTE] + t == [QUOTE] + t;
      ReadQuote(t);
    } else if |s| >= 2 && High(s[0]) && Low(s[1]) {
      ReadEscaped(s[2..], t);
      PairEscaped(s, t);
    } else {
      ReadEscaped(s[1..], t);
      UnitEscaped(s, t);
    }
  }

  lemma ReadQuote(t: Text16)
    ensures ReadString([QUOTE] + t) == Some(([], t))
  {
    assert ([QUOTE] + t)[1..] == t;
  }

  lemma PairEscaped(s: Text16, t: Text16)
    requires |s| >= 2 && High(s[0]) && Low(s[1])
    requires ReadString(EscapeAll(s[2..]) + [QUOTE] + t) == Some((s[2..], t))
    ensures ReadString(EscapeAll(s) + [QUOTE] + t) == Some((s, t))
  {
    hide Escape, ReadString;
    var tail := EscapeAll(s[2..]) + [QUOTE] + t;
    assert EscapeAll(s) + [QUOTE] + t == [s[0]] + ([s[1]] + tail);
    assert s == [s[0]] + ([s[1]] + s[2..]);
    ReadPlain(s[1], tail);
    ReadPlain(s[0], [s[1]] + tail);
  }

  lemma UnitEscaped(s: Text16, t: Text16)
    requires s != [] && !(|s| >= 2 && High(s[0]) && Low(s[1]))
    requires ReadString(EscapeAll(s[1..]) + [QUOTE] + t) == Some((s[1..], t))
    ensures ReadString(EscapeAll(s) + [QUOTE] + t) == Some((s, t))
  {
    hide Escape, ReadString;
    var tail := EscapeAll(s[1..]) + [QUOTE] + t;
    assert EscapeAll(s) + [QUOTE] + t == Escape(s[0]) + tail;
    ReadEscape(s[0], tail);
    assert s == [s[0]] + s[1..];
  }

  lemma ReadPlain(u: Unit, t: Text16)
    requires u != QUOTE && u != BACKSLASH
    ensures ReadString([u] + t) == Prefixed(u, ReadString(t))
  {
    assert ([u] + t)[1..] == t;
  }

  /** A printed string ends where its closing quote is, whatever follows. */
  lemma QuotedUnambiguous(a: Text16, b: Text16, r: Text16, s: Text16)
    requires Quoted(a) + r == Quoted(b) + s
    ensures a == b && r == s
  {
    assert (Quoted(a) + r)[1..] == EscapeAll(a) + [QUOTE] + r;
    assert (Quoted(b) + s)[1..] == EscapeAll(b) + [QUOTE] + s;
    ReadEscaped(a, r);
    ReadEscaped(b, s);
  }

  // ---------------------------------------------------------------- numbers

  predicate NumberUnit(u: Unit) {
    48 <= u < 58 || u == 0x2b || u == 0x2d || u == 0x2e || u == 0x65
  }

  /**
   * What the number printer is assumed to do: different numbers in different texts made of digits, signs, point and e.
   */
  ghost predicate PrintsNumbers(num: Printer) {
    && (forall n :: num(n) != [] && forall i :: 0 <= i < |num(n)| ==> NumberUnit(num(n)[i]))
    && (forall m, n :: num(m) == num(n) ==> m == n)
  }

  /** Nothing follows, or a separator does. */
  predicate Ended(t: Text16) {
    t == [] || t[0] == COMMA || t[0] == CLOSE || t[0] == CLOSE_OBJ
  }

  lemma {:induction false} RunUnambiguous(a: Text16, b: Text16, r: Text16, s: Text16)
    requires (forall i :: 0 <= i < |a| ==> NumberUnit(a[i])) && (forall i :: 0 <= i < |b| ==> NumberUnit(b[i]))
    requires Ended(r) && Ended(s) && a + r == b + s
    ensures a == b && r == s
  {
    if a == [] || b == [] {
      assert [] + r == r && [] + s == s;
    } else {
      assert (a + r)[0] == a[0] && (b + s)[0] == b[0];
      assert (a + r)[1..] == a[1..] + r && (b + s)[1..] == b[1..] + s;
      RunUnambiguous(a[1..], b[1..], r, s);
    }
  }

  // ---------------------------------------------------------------- values

  /** What kind of value a text begins with; 7 for none. */
  function KindOf(u: Unit): nat {
    if u == 0x6e then 0 else if u == 0x74 then 1 else if u == 0x66 then 2 else if NumberUnit(u) then 3
    else if u == QUOTE then 4 else if u == OPEN then 5 else if u == OPEN_OBJ then 6 else 7
  }

  function Kind(v: Value): nat {
    match v
    case Bool(b) => if b then 1 else 2
    case Num(n) => 3
    case Str(s) => 4
    case Arr(items) => 5
    case Obj(members) => 6
    case _ => 0
  }

  lemma FirstTellsKind(num: Printer, v: Value)
    requires PrintsNumbers(num)
    ensures Print(num, v) != [] && KindOf(Print(num, v)[0]) == Kind(v)
  {
  }

  lemma TextDecides(a: Text16, b: Text16, r: Text16, s: Text16)
    requires a + r == b + s
    ensures a != [] && b != [] ==> a[0] == b[0]
    ensures a == b ==> r == s
  {
    if a != [] && b != [] {
      assert (a + r)[0] == (b + s)[0];
    }
    assert r == (a + r)[|a|..];
    assert s == (b + s)[|b|..];
  }

  /** Printed values are self-delimiting: two values printed before the same text are the same value. */
  lemma {:induction false} Unambiguous(num: Printer, a: Value, b: Value, r: Text16, s: Text16)
    requires PrintsNumbers(num) && IsJson(a) && IsJson(b) && Ended(r) && Ended(s)
    requires Print(num, a) + r == Print(num, b) + s
    ensures a == b && r == s
    decreases a
  {
    hide Quoted, Ended, PrintItems, PrintMembers;
    FirstTellsKind(num, a);
    FirstTellsKind(num, b);
    TextDecides(Print(num, a), Print(num, b), r, s);
    match a {
      case Num(n) => RunUnambiguous(num(n), num(b.n), r, s);
      case Str(t) => QuotedUnambiguous(t, b.s, r, s);
      case Arr(items) =>
        DropFirst(OPEN, PrintItems(num, items), PrintItems(num, b.items), [CLOSE], r, s);
        ItemsUnambiguous(num, items, b.items, r, s);
      case Obj(members) =>
        DropFirst(OPEN_OBJ, PrintMembers(num, members), PrintMembers(num, b.members), [CLOSE_OBJ], r, s);
        MembersUnambiguous(num, members, b.members, r, s);
      case _ =>
    }
  }

  lemma DropFirst(u: Unit, a: Text16, b: Text16, end: Text16, r: Text16, s: Text16)
    requires [u] + a + end + r == [u] + b + end + s
    ensures a + end + r == b + end + s
  {
    assert ([u] + a + end + r)[1..] == a + end + r;
    assert ([u] + b + end + s)[1..] == b + end + s;
  }

  /** What stands before and after the first unit of a tail. */
  lemma TailParts(end: Unit, a: Text16, r: Text16)
    ensures ([end] + r)[0] == end && ([end] + r)[1..] == r
    ensures ([COMMA] + a + [end] + r)[0] == COMMA && ([COMMA] + a + [end] + r)[1..] == a + [end] + r
  {
  }

  lemma Regroup(key: Text16, value: Text16, rest: Text16, end: Unit, r: Text16)
    ensures key + [COLON] + value + [end] + r == key + ([COLON] + (value + ([end] + r)))
    ensures key + [COLON] + value + [COMMA] + rest + [end] + r ==
      key + ([COLON] + (value + ([COMMA] + rest + [end] + r)))
  {
    var t := [COMMA] + rest + [end] + r;
    assert key + [COLON] + value + [COMMA] + rest + [end] + r == key + [COLON] + value + t;
  }

  function ItemsTail(num: Printer, rest: Items, r: Text16): Text16 {
    if rest.NoItems? then [CLOSE] + r else [COMMA] + PrintItems(num, rest) + [CLOSE] + r
  }

  lemma ItemsSplit(num: Printer, xs: Items, r: Text16)
    requires xs.Item?
    ensures PrintItems(num, xs) + [CLOSE] + r == Print(num, xs.head) + ItemsTail(num, xs.rest, r)
  {
  }

  lemma {:induction false} ItemsUnambiguous(num: Printer, xs: Items, ys: Items, r: Text16, s: Text16)
    requires PrintsNumbers(num) && ItemsAreJson(xs) && ItemsAreJson(ys)
    requires PrintItems(num, xs) + [CLOSE] + r == PrintItems(num, ys) + [CLOSE] + s
    ensures xs == ys && r == s
    decreases xs
  {
    hide Print;
    if xs.Item? { ItemsSplit(num, xs, r); FirstTellsKind(num, xs.head); }
    if ys.Item? { ItemsSplit(num, ys, s); FirstTellsKind(num, ys.head); }
    if xs.NoItems? || ys.NoItems? {
      assert [] + [CLOSE] + r == [CLOSE] + r && [] + [CLOSE] + s == [CLOSE] + s;
      if xs.NoItems? && ys.NoItems? { TextDecides([CLOSE], [CLOSE], r, s); }
      else if ys.Item? { TextDecides([CLOSE], Print(num, ys.head), r, ItemsTail(num, ys.rest, s)); }
      else { TextDecides(Print(num, xs.head), [CLOSE], ItemsTail(num, xs.rest, r), s); }
    } else {
      var t, u := ItemsTail(num, xs.rest, r), ItemsTail(num, ys.rest, s);
      Unambiguous(num, xs.head, ys.head, t, u);
      ItemsTailsEqual(num, xs.rest, ys.rest, r, s);
      if xs.rest.Item? { ItemsUnambiguous(num, xs.rest, ys.rest, r, s); }
    }
  }

  lemma ItemsTailsEqual(num: Printer, xs: Items, ys: Items, r: Text16, s: Text16)
    requires ItemsTail(num, xs, r) == ItemsTail(num, ys, s)
    ensures xs.Item? <==> ys.Item?
    ensures xs.NoItems? && ys.NoItems? ==> r == s
    ensures xs.Item? && ys.Item? ==> PrintItems(num, xs) + [CLOSE] + r == PrintItems(num, ys) + [CLOSE] + s
  {
    hide PrintItems;
    TailParts(CLOSE, PrintItems(num, xs), r);
    TailParts(CLOSE, PrintItems(num, ys), s);
  }

  function MembersTail(num: Printer, rest: Members, r: Text16): Text16 {
    if rest.NoMembers? then [CLOSE_OBJ] + r else [COMMA] + PrintMembers(num, rest) + [CLOSE_OBJ] + r
  }

  lemma MembersSplit(num: Printer, m: Members, r: Text16)
    requires m.Member?
    ensures PrintMembers(num, m) + [CLOSE_OBJ] + r ==
      Quoted(m.key) + ([COLON] + (Print(num, m.value) + MembersTail(num, m.rest, r)))
  {
    Regroup(Quoted(m.key), Print(num, m.value), PrintMembers(num, m.rest), CLOSE_OBJ, r);
    hide Quoted, Print;
  }

  lemma QuotedStarts(k: Text16)
    ensures Quoted(k) != [] && Quoted(k)[0] == QUOTE
  {
  }

  lemma {:induction false} MembersUnambiguous(num: Printer, a: Members, b: Members, r: Text16, s: Text16)
    requires PrintsNumbers(num) && MembersAreJson(a) && MembersAreJson(b)
    requires PrintMembers(num, a) + [CLOSE_OBJ] + r == PrintMembers(num, b) + [CLOSE_OBJ] + s
    ensures a == b && r == s
    decreases a
  {
    hide Print, Quoted;
    if a.Member? { MembersSplit(num, a, r); QuotedStarts(a.key); }
    if b.Member? { MembersSplit(num, b, s); QuotedStarts(b.key); }
    if a.NoMembers? || b.NoMembers? {
      assert [] + [CLOSE_OBJ] + r == [CLOSE_OBJ] + r && [] + [CLOSE_OBJ] + s == [CLOSE_OBJ] + s;
      if a.NoMembers? && b.NoMembers? {
        TextDecides([CLOSE_OBJ], [CLOSE_OBJ], r, s);
      } else if b.Member? {
        TextDecides([CLOSE_OBJ], Quoted(b.key), r, [COLON] + (Print(num, b.value) + MembersTail(num, b.rest, s)));
      } else {
        TextDecides(Quoted(a.key), [CLOSE_OBJ], [COLON] + (Print(num, a.value) + MembersTail(num, a.rest, r)), s);
      }
    } else {
      var t, u := MembersTail(num, a.rest, r), MembersTail(num, b.rest, s);
      QuotedUnambiguous(a.key, b.key, [COLON] + (Print(num, a.value) + t), [COLON] + (Print(num, b.value) + u));
      TextDecides([COLON], [COLON], Print(num, a.value) + t, Print(num, b.value) + u);
      Unambiguous(num, a.value, b.value, t, u);
      MembersTailsEqual(num, a.rest, b.rest, r, s);
      if a.rest.Member? { MembersUnambiguous(num, a.rest, b.rest, r, s); }
    }
  }

  lemma MembersTailsEqual(num: Printer, a: Members, b: Members, r: Text16, s: Text16)
    requires MembersTail(num, a, r) == MembersTail(num, b, s)
    ensures a.Member? <==> b.Member?
    ensures a.NoMembers? && b.NoMembers? ==> r == s
    ensures a.Member? && b.Member? ==> PrintMembers(num, a) + [CLOSE_OBJ] + r == PrintMembers(num, b) + [CLOSE_OBJ] + s
  {
    hide PrintMembers;
    TailParts(CLOSE_OBJ, PrintMembers(num, a), r);
    TailParts(CLOSE_OBJ, PrintMembers(num, b), s);
  }
}
