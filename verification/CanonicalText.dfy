/**
 * What canonical JSON looks like (shared/web-audit/src/model.ts:157-165,
   shared/control-plane/src/idempotency.ts:23-30):
 * its literals, escapes, brackets and the order of its keys, spelled out.
 */
module CanonicalText {
  import opened Bridge
  import opened Utf16
  import opened CanonicalJson
  import opened CanonicalOrder

  /** The code units of a text in ASCII. */
  function Ascii(s: string): Text16
    requires forall i :: 0 <= i < |s| ==> s[i] < 128 as char
  {
    seq(|s|, i requires 0 <= i < |s| => s[i] as int)
  }

  // ---------------------------------------------------------------- the order of keys

  /** The texts first differ at `k`, and the first has the smaller code unit there. */
  predicate SmallerAt(a: Text16, b: Text16, k: nat) {
    k < |a| && k < |b| && a[..k] == b[..k] && a[k] < b[k]
  }

  /**
   * One text comes before another if it is a proper beginning of it, or has the smaller code unit where they first
   * differ.
   */
  lemma {:induction false} BeforeMeans(a: Text16, b: Text16)
    ensures Before(a, b) <==> a < b || exists k: nat :: SmallerAt(a, b, k)
  {
    hide SmallerAt;
    if a == [] || b == [] {
      forall k: nat ensures !SmallerAt(a, b, k) { OneIsEmpty(a, b, k); }
    } else {
      BeforeMeans(a[1..], b[1..]);
      assert a == [a[0]] + a[1..] && b == [b[0]] + b[1..];
      forall k: nat ensures SmallerAt(a, b, k) <==>
        if k == 0 then a[0] < b[0] else a[0] == b[0] && SmallerAt(a[1..], b[1..], k - 1)
      {
        DiffersLater(a, b, k);
      }
      FirstOrLater(a, b);
    }
  }

  lemma OneIsEmpty(a: Text16, b: Text16, k: nat)
    requires a == [] || b == []
    ensures !SmallerAt(a, b, k)
  {
  }

  lemma DiffersLater(a: Text16, b: Text16, k: nat)
    requires a != [] && b != []
    ensures SmallerAt(a, b, k) <==> if k == 0 then a[0] < b[0] else a[0] == b[0] && SmallerAt(a[1..], b[1..], k - 1)
  {
    if 0 < k < |a| && k < |b| {
      assert a[..k] == [a[0]] + a[1..][..k - 1] && b[..k] == [b[0]] + b[1..][..k - 1];
    }
  }

  lemma FirstOrLater(a: Text16, b: Text16)
    requires a != [] && b != []
    requires forall k: nat :: SmallerAt(a, b, k) <==>
      if k == 0 then a[0] < b[0] else a[0] == b[0] && SmallerAt(a[1..], b[1..], k - 1)
    ensures (exists k: nat :: SmallerAt(a, b, k)) <==>
      a[0] < b[0] || (a[0] == b[0] && exists k: nat :: SmallerAt(a[1..], b[1..], k))
  {
    hide SmallerAt;
    if a[0] < b[0] { assert SmallerAt(a, b, 0); }
    if a[0] == b[0] && exists k: nat :: SmallerAt(a[1..], b[1..], k) {
      var k: nat :| SmallerAt(a[1..], b[1..], k);
      assert SmallerAt(a, b, k + 1);
    }
    if k: nat :| SmallerAt(a, b, k) {
      if k > 0 { assert SmallerAt(a[1..], b[1..], k - 1); }
    }
  }

  function Keys(m: Members): seq<Text16> {
    match m
    case NoMembers => []
    case Member(k, v, rest) => [k] + Keys(rest)
  }

  lemma {:induction false} SortedKeysAscend(m: Members)
    requires Sorted(m)
    ensures forall i, j :: 0 <= i < j < |Keys(m)| ==> Before(Keys(m)[i], Keys(m)[j])
  {
    if m.Member? && m.rest.Member? {
      SortedKeysAscend(m.rest);
      forall j | 1 <= j < |Keys(m)| ensures Before(m.key, Keys(m)[j]) {
        if j > 1 { BeforeTransitive(m.key, Keys(m.rest)[0], Keys(m.rest)[j - 1]); }
      }
    }
  }

  lemma {:induction false} KeysAreThose(m: Members)
    ensures forall k :: k in Keys(m) <==> k in MapOf(m)
  {
    if m.Member? { KeysAreThose(m.rest); }
  }

  /** An object is printed with its keys in ascending order, each with the normal form of its value. */
  lemma NormalKeysAscend(m: Members)
    requires ValidMembers(m)
    ensures var keys := Keys(Normal(Obj(m)).members);
      && (forall i, j :: 0 <= i < j < |keys| ==> Before(keys[i], keys[j]))
      && (forall k :: k in keys <==> k in Keys(m))
    ensures forall k :: k in MapOf(m) ==>
      k in MapOf(Normal(Obj(m)).members) && MapOf(Normal(Obj(m)).members)[k] == Normal(MapOf(m)[k])
  {
    NormalMembersValid(m);
    NormalMap(m);
    SortKeepsMap(NormalMembers(m));
    SortedKeysAscend(SortMembers(NormalMembers(m)));
    KeysAreThose(SortMembers(NormalMembers(m)));
    KeysAreThose(m);
  }

  // ---------------------------------------------------------------- the text

  function JoinTexts(texts: seq<Text16>, separator: Text16): Text16 {
    if texts == [] then [] else if |texts| == 1 then texts[0]
      else texts[0] + separator + JoinTexts(texts[1..], separator)
  }

  function ItemTexts(num: Printer, items: Items): seq<Text16> {
    match items
    case NoItems => []
    case Item(v, rest) => [Print(num, v)] + ItemTexts(num, rest)
  }

  /** A key in quotes, a colon, and the value. */
  function MemberTexts(num: Printer, m: Members): seq<Text16> {
    match m
    case NoMembers => []
    case Member(k, v, rest) => [Quoted(k) + Ascii(":") + Print(num, v)] + MemberTexts(num, rest)
  }

  lemma {:induction false} ItemsAreJoined(num: Printer, items: Items)
    ensures PrintItems(num, items) == JoinTexts(ItemTexts(num, items), Ascii(","))
  {
    if items.Item? {
      ItemsAreJoined(num, items.rest);
      assert ItemTexts(num, items)[1..] == ItemTexts(num, items.rest);
      assert Ascii(",") == [COMMA];
    }
  }

  lemma {:induction false} MembersAreJoined(num: Printer, m: Members)
    ensures PrintMembers(num, m) == JoinTexts(MemberTexts(num, m), Ascii(","))
  {
    if m.Member? {
      MembersAreJoined(num, m.rest);
      assert MemberTexts(num, m)[1..] == MemberTexts(num, m.rest);
      assert Ascii(",") == [COMMA] && Ascii(":") == [COLON];
      if m.rest.Member? {
        var first := Quoted(m.key) + [COLON] + Print(num, m.value);
        assert first + [COMMA] + PrintMembers(num, m.rest) == Quoted(m.key) + [COLON] + Print(num, m.value) + [COMMA]
          + PrintMembers(num, m.rest);
      }
    }
  }

  /** Every value is printed as JSON writes it, without a space anywhere. */
  lemma PrintedForm(num: Printer, v: Value)
    ensures v.Null? ==> Print(num, v) == Ascii("null")
    ensures v == Bool(true) ==> Print(num, v) == Ascii("true")
    ensures v == Bool(false) ==> Print(num, v) == Ascii("false")
    ensures v.Num? ==> Print(num, v) == num(v.n)
    ensures v.Str? ==> Print(num, v) == Ascii("\"") + EscapeAll(v.s) + Ascii("\"")
    ensures v.Arr? ==> Print(num, v) == Ascii("[") + JoinTexts(ItemTexts(num, v.items), Ascii(",")) + Ascii("]")
    ensures v.Obj? ==> Print(num, v) == Ascii("{") + JoinTexts(MemberTexts(num, v.members), Ascii(",")) + Ascii("}")
  {
    if v.Arr? { ItemsAreJoined(num, v.items); }
    if v.Obj? { MembersAreJoined(num, v.members); }
    assert Ascii("[") == [OPEN] && Ascii("]") == [CLOSE] && Ascii("{") == [OPEN_OBJ] && Ascii("}") == [CLOSE_OBJ];
    assert Ascii("\"") == [QUOTE];
    assert Ascii("null") == NULL_TEXT && Ascii("true") == TRUE_TEXT && Ascii("false") == FALSE_TEXT;
  }

  /** A hexadecimal digit in lower case. */
  lemma HexIsLowerCase(d: nat)
    requires d < 16
    ensures Hex(d) == "0123456789abcdef"[d] as int
  {
  }

  /** Which units are escaped, and how; every other unit that is no lone surrogate stands for itself. */
  lemma EscapeExactly(u: Unit)
    ensures Escape(0x22) == Ascii("\\\"") && Escape(0x5c) == Ascii("\\\\")
    ensures Escape(8) == Ascii("\\b") && Escape(9) == Ascii("\\t") && Escape(10) == Ascii("\\n")
    ensures Escape(12) == Ascii("\\f") && Escape(13) == Ascii("\\r")
    ensures (u < 0x20 && u !in {8, 9, 10, 12, 13}) || 0xd800 <= u < 0xe000 ==>
      Escape(u) == Ascii("\\u") + [Hex(u / 4096), Hex(u / 256 % 16), Hex(u / 16 % 16), Hex(u % 16)]
    ensures 0x20 <= u && u != 0x22 && u != 0x5c && !(0xd800 <= u < 0xe000) ==> Escape(u) == [u]
  {
  }

  /** Ordinary text, surrogate pairs included, is copied between its quotes. */
  lemma {:induction false} PlainTextIsKept(s: Text16)
    requires WellFormed(s) && forall u :: u in s ==> u >= 0x20 && u != QUOTE && u != BACKSLASH
    ensures EscapeAll(s) == s
    decreases |s|
  {
    hide EscapeAll, WellFormed;
    if s != [] {
      var p := FirstCodePoint(s);
      WellFormedRest(s);
      assert s[0] in s;
      PlainStep(s);
      assert forall u :: u in s[|p|..] ==> u in s;
      PlainTextIsKept(s[|p|..]);
    } else {
      NothingEscaped();
    }
  }

  lemma NothingEscaped()
    ensures EscapeAll([]) == []
  {
  }

  lemma WellFormedRest(s: Text16)
    requires WellFormed(s) && s != []
    ensures IsScalar(FirstCodePoint(s)) && WellFormed(s[|FirstCodePoint(s)|..])
  {
    var p := FirstCodePoint(s);
    hide FirstCodePoint, IsScalar;
    assert CodePoints(s) == [p] + CodePoints(s[|p|..]);
    assert p in CodePoints(s);
    assert forall q :: q in CodePoints(s[|p|..]) ==> q in CodePoints(s);
  }

  /** An ordinary code point is copied. */
  lemma PlainStep(s: Text16)
    requires s != [] && IsScalar(FirstCodePoint(s)) && s[0] >= 0x20 && s[0] != QUOTE && s[0] != BACKSLASH
    ensures EscapeAll(s) == FirstCodePoint(s) + EscapeAll(s[|FirstCodePoint(s)|..])
  {
    hide EscapeAll;
    if |s| >= 2 && High(s[0]) && Low(s[1]) {
      PairCopied(s);
      assert s[..2] == [s[0], s[1]];
    } else {
      UnitCopied(s);
      assert s[..1] == [s[0]];
    }
  }

  lemma PairCopied(s: Text16)
    requires |s| >= 2 && High(s[0]) && Low(s[1])
    ensures EscapeAll(s) == [s[0], s[1]] + EscapeAll(s[2..])
  {
  }

  lemma UnitCopied(s: Text16)
    requires s != [] && !High(s[0]) && !Low(s[0]) && s[0] >= 0x20 && s[0] != QUOTE && s[0] != BACKSLASH
    ensures EscapeAll(s) == [s[0]] + EscapeAll(s[1..])
  {
    EscapeExactly(s[0]);
    hide Escape;
  }

  // ---------------------------------------------------------------- what stableStringify leaves out

  lemma {:induction false} CleanKeepsJson(v: Value)
    requires IsJson(v)
    ensures Clean(v) == v
  {
    match v {
      case Arr(items) => CleanKeepsItems(items);
      case Obj(members) => CleanKeepsMembers(members);
      case _ =>
    }
  }

  lemma {:induction false} CleanKeepsItems(items: Items)
    requires ItemsAreJson(items)
    ensures CleanItems(items) == items
  {
    if items.Item? {
      CleanKeepsJson(items.head);
      CleanKeepsItems(items.rest);
    }
  }

  lemma {:induction false} CleanKeepsMembers(m: Members)
    requires MembersAreJson(m)
    ensures CleanMembers(m) == m
  {
    if m.Member? {
      CleanKeepsJson(m.value);
      CleanKeepsMembers(m.rest);
    }
  }

  /** Of an object exactly the undefined properties are gone, and nothing else about its keys changes. */
  lemma {:induction false} CleanDropsUndefined(m: Members)
    requires ValidMembers(m)
    ensures forall k :: k in MapOf(CleanMembers(m)) <==> k in MapOf(m) && !MapOf(m)[k].Undefined?
    ensures forall k :: k in MapOf(CleanMembers(m)) ==> MapOf(CleanMembers(m))[k] == Clean(MapOf(m)[k])
  {
    if m.Member? { CleanDropsUndefined(m.rest); }
  }

  function At(items: Items, i: nat): Value {
    match items
    case NoItems => Undefined
    case Item(v, rest) => if i == 0 then v else At(rest, i - 1)
  }

  function Length(items: Items): nat {
    match items
    case NoItems => 0
    case Item(v, rest) => 1 + Length(rest)
  }

  /** An array keeps its length; what is undefined or no number is null there. */
  lemma {:induction false} CleanKeepsPlaces(items: Items, i: nat)
    ensures Length(CleanItems(items)) == Length(items)
    ensures i < Length(items) ==>
      At(CleanItems(items), i) ==
        (if At(items, i).Undefined? || At(items, i).NonFinite? then Null else Clean(At(items, i)))
  {
    if items.Item? { CleanKeepsPlaces(items.rest, if i == 0 then 0 else i - 1); }
  }
}
