/**
 * Canonical JSON: `canonical` (shared/web-audit/src/model.ts:157-165) and `stableStringify`
 * (shared/control-plane/src/idempotency.ts:23-30).
 *
 * Strings are sequences of UTF-16 code units, lone surrogates included. The printer of finite numbers is a
 * parameter; string escapes follow section 7 of RFC 8259 as JavaScript writes them.
 */
module CanonicalJson {
  import opened Bridge
  import opened Utf16

  /** A JavaScript value without cycles; a finite number is named by an integer, -0 by the same as 0. */
  datatype Value =
    | Null
    | Bool(b: bool)
    | Num(n: int)
    | NonFinite
    | Undefined
    | Str(s: Text16)
    | Arr(items: Items)
    | Obj(members: Members)

  datatype Items = NoItems | Item(head: Value, rest: Items)

  /** The own properties of an object, in order of insertion. */
  datatype Members = NoMembers | Member(key: Text16, value: Value, rest: Members)

  type Printer = int -> Text16

  const QUOTE: Unit := 0x22
  const COMMA: Unit := 0x2c
  const COLON: Unit := 0x3a
  const BACKSLASH: Unit := 0x5c
  const OPEN: Unit := 0x5b
  const CLOSE: Unit := 0x5d
  const OPEN_OBJ: Unit := 0x7b
  const CLOSE_OBJ: Unit := 0x7d
  const LETTER_U: Unit := 0x75

  // ---------------------------------------------------------------- strings

  function Hex(d: int): Unit
    requires 0 <= d < 16
  {
    if d < 10 then 48 + d else 87 + d
  }

  function Unhex(u: Unit): int {
    if 48 <= u < 58 then u - 48 else if 97 <= u < 103 then u - 87 else 0
  }

  function Hex4(u: Unit): Text16 {
    [Hex(u / 4096), Hex(u / 256 % 16), Hex(u / 16 % 16), Hex(u % 16)]
  }

  function ShortEscape(u: Unit): Option<Unit> {
    if u == QUOTE || u == BACKSLASH then Some(u)
    else if u == 8 then Some(0x62)
    else if u == 9 then Some(0x74)
    else if u == 10 then Some(0x6e)
    else if u == 12 then Some(0x66)
    else if u == 13 then Some(0x72)
    else None
  }

  function Escape(u: Unit): Text16 {
    if ShortEscape(u).Some? then [BACKSLASH, ShortEscape(u).value]
    else if u < 0x20 || High(u) || Low(u) then [BACKSLASH, LETTER_U] + Hex4(u)
    else [u]
  }

  /** A surrogate pair is copied; any other surrogate is escaped. */
  function EscapeAll(s: Text16): Text16 {
    if s == [] then []
    else if |s| >= 2 && High(s[0]) && Low(s[1]) then [s[0], s[1]] + EscapeAll(s[2..])
    else Escape(s[0]) + EscapeAll(s[1..])
  }

  function Quoted(s: Text16): Text16 {
    [QUOTE] + EscapeAll(s) + [QUOTE]
  }

  // ---------------------------------------------------------------- printing in the order given

  const TRUE_TEXT: Text16 := [0x74, 0x72, 0x75, 0x65]
  const FALSE_TEXT: Text16 := [0x66, 0x61, 0x6c, 0x73, 0x65]
  const NULL_TEXT: Text16 := [0x6e, 0x75, 0x6c, 0x6c]

  function Print(num: Printer, v: Value): Text16 {
    match v
    case Null => NULL_TEXT
    case Bool(b) => if b then TRUE_TEXT else FALSE_TEXT
    case Num(n) => num(n)
    case NonFinite => NULL_TEXT
    case Undefined => NULL_TEXT
    case Str(s) => Quoted(s)
    case Arr(items) => [OPEN] + PrintItems(num, items) + [CLOSE]
    case Obj(members) => [OPEN_OBJ] + PrintMembers(num, members) + [CLOSE_OBJ]
  }

  function PrintItems(num: Printer, items: Items): Text16 {
    match items
    case NoItems => []
    case Item(v, NoItems) => Print(num, v)
    case Item(v, rest) => Print(num, v) + [COMMA] + PrintItems(num, rest)
  }

  function PrintMembers(num: Printer, m: Members): Text16 {
    match m
    case NoMembers => []
    case Member(k, v, NoMembers) => Quoted(k) + [COLON] + Print(num, v)
    case Member(k, v, rest) => Quoted(k) + [COLON] + Print(num, v) + [COMMA] + PrintMembers(num, rest)
  }

  // ---------------------------------------------------------------- sorting

  /** Order of code units, as the default sort uses it. */
  predicate Before(a: Text16, b: Text16) {
    if b == [] then false
    else if a == [] then true
    else a[0] < b[0] || (a[0] == b[0] && Before(a[1..], b[1..]))
  }

  function InsertMember(key: Text16, value: Value, m: Members): Members {
    match m
    case NoMembers => Member(key, value, NoMembers)
    case Member(k, v, rest) => if Before(key, k) then Member(key, value, m)
      else Member(k, v, InsertMember(key, value, rest))
  }

  function SortMembers(m: Members): Members {
    match m
    case NoMembers => NoMembers
    case Member(k, v, rest) => InsertMember(k, v, SortMembers(rest))
  }

  /** Every object with its keys in order, at every depth. */
  function Normal(v: Value): Value {
    match v
    case Arr(items) => Arr(NormalItems(items))
    case Obj(members) => Obj(SortMembers(NormalMembers(members)))
    case _ => v
  }

  function NormalItems(items: Items): Items {
    match items
    case NoItems => NoItems
    case Item(v, rest) => Item(Normal(v), NormalItems(rest))
  }

  function NormalMembers(m: Members): Members {
    match m
    case NoMembers => NoMembers
    case Member(k, v, rest) => Member(k, Normal(v), NormalMembers(rest))
  }

  // ---------------------------------------------------------------- the two printers

  /** Nothing in the value but what JSON has. */
  predicate IsJson(v: Value) {
    match v
    case NonFinite => false
    case Undefined => false
    case Arr(items) => ItemsAreJson(items)
    case Obj(members) => MembersAreJson(members)
    case _ => true
  }

  predicate ItemsAreJson(items: Items) {
    items.Item? ==> IsJson(items.head) && ItemsAreJson(items.rest)
  }

  predicate MembersAreJson(m: Members) {
    m.Member? ==> IsJson(m.value) && MembersAreJson(m.rest)
  }

  /** `canonical`; `None` is the error it throws. */
  function Canonical(num: Printer, v: Value): Option<Text16> {
    if IsJson(v) then Some(Print(num, Normal(v))) else None
  }

  /** What `stableStringify` sees of a value: undefined properties are gone, other non-JSON values are null. */
  function Clean(v: Value): Value {
    match v
    case NonFinite => Null
    case Undefined => Null
    case Arr(items) => Arr(CleanItems(items))
    case Obj(members) => Obj(CleanMembers(members))
    case _ => v
  }

  function CleanItems(items: Items): Items {
    match items
    case NoItems => NoItems
    case Item(v, rest) => Item(Clean(v), CleanItems(rest))
  }

  function CleanMembers(m: Members): Members {
    match m
    case NoMembers => NoMembers
    case Member(k, v, rest) => if v.Undefined? then CleanMembers(rest) else Member(k, Clean(v), CleanMembers(rest))
  }

  /** `stableStringify`. */
  function StableStringify(num: Printer, v: Value): Text16 {
    Print(num, Normal(Clean(v)))
  }
}
