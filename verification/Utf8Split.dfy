/**
 * Splitting a text into chunks of limited UTF-8 length (shared/protocol/src/artifact-transport.ts:28-49).
 */
module Utf8Split {
  import opened Bridge
  import opened Utf16

  /** The length of a code point in UTF-8, section 3 of RFC 3629. */
  function Utf8Bytes(p: Text16): nat {
    if |p| != 1 then 4 else if p[0] < 0x80 then 1 else if p[0] < 0x800 then 2 else 3
  }

  function Bytes(points: seq<Text16>): nat {
    if points == [] then 0 else Utf8Bytes(points[0]) + Bytes(points[1..])
  }

  /** The Unicode scalar value of a code point: its unit, or what a surrogate pair stands for. */
  function ScalarValue(p: Text16): int
    requires IsScalar(p)
  {
    if |p| == 1 then p[0]
    else
      var high: int, low: int := p[0], p[1];
      0x10000 + (high - 0xd800) * 0x400 + (low - 0xdc00)
  }

  /** The bytes of a scalar value in UTF-8, section 3 of RFC 3629. */
  function Utf8(x: int): (r: seq<int>)
    requires 0 <= x < 0x110000
    ensures forall b :: b in r ==> 0 <= b < 0x100
  {
    if x < 0x80 then [x]
    else if x < 0x800 then [0xc0 + x / 0x40, 0x80 + x % 0x40]
    else if x < 0x10000 then [0xe0 + x / 0x1000, 0x80 + x / 0x40 % 0x40, 0x80 + x % 0x40]
    else [0xf0 + x / 0x40000, 0x80 + x / 0x1000 % 0x40, 0x80 + x / 0x40 % 0x40, 0x80 + x % 0x40]
  }

  /** The count is that of the encoded bytes. */
  lemma CountsEncodedBytes(p: Text16)
    requires IsScalar(p)
    ensures 0 <= ScalarValue(p) < 0x110000 && Utf8Bytes(p) == |Utf8(ScalarValue(p))|
  {
  }

  /** The code points of all chunks, chunk by chunk. */
  function PointsOf(chunks: seq<Text16>): seq<Text16> {
    if chunks == [] then [] else CodePoints(chunks[0]) + PointsOf(chunks[1..])
  }

  /** A split of `value` at code-point boundaries into chunks within the budget. */
  ghost predicate IsSplit(value: Text16, budget: int, chunks: seq<Text16>) {
    && chunks != []
    && Concat(chunks) == value
    && PointsOf(chunks) == CodePoints(value)
    && forall c :: c in chunks ==> Bytes(CodePoints(c)) <= budget
  }

  lemma {:induction false} BytesPlus(a: seq<Text16>, b: seq<Text16>)
    ensures Bytes(a + b) == Bytes(a) + Bytes(b)
  {
    if a == [] {
      assert a + b == b;
    } else {
      assert (a + b)[1..] == a[1..] + b;
      BytesPlus(a[1..], b);
    }
  }

  lemma {:induction false} PointsPlus(a: seq<Text16>, b: seq<Text16>)
    ensures PointsOf(a + b) == PointsOf(a) + PointsOf(b)
  {
    if a == [] {
      assert a + b == b;
    } else {
      assert (a + b)[1..] == a[1..] + b;
      PointsPlus(a[1..], b);
    }
  }

  // ---------------------------------------------------------------- the greedy grouping

  /** How the loop groups the code points still to come when `current` has been collected. */
  function Groups(current: seq<Text16>, rest: seq<Text16>, budget: int): seq<seq<Text16>>
    decreases |rest|
  {
    if rest == [] then (if current == [] then [] else [current])
    else if current != []
      && Bytes(current) + Utf8Bytes(rest[0]) > budget then [current] + Groups([rest[0]], rest[1..], budget)
    else Groups(current + [rest[0]], rest[1..], budget)
  }

  function Flatten(groups: seq<seq<Text16>>): seq<Text16> {
    if groups == [] then [] else groups[0] + Flatten(groups[1..])
  }

  lemma {:induction false} GroupsAreSound(current: seq<Text16>, rest: seq<Text16>, budget: int)
    requires budget >= 4 && Bytes(current) <= budget
    ensures Flatten(Groups(current, rest, budget)) == current + rest
    ensures forall g :: g in Groups(current, rest, budget) ==> g != [] && Bytes(g) <= budget
    decreases |rest|
  {
    if rest == [] {
      assert current != [] ==> [current][1..] == [];
    } else if current != [] && Bytes(current) + Utf8Bytes(rest[0]) > budget {
      OnePoint(rest[0]);
      GroupsAreSound([rest[0]], rest[1..], budget);
      var more := Groups([rest[0]], rest[1..], budget);
      assert ([current] + more)[1..] == more;
      assert [rest[0]] + rest[1..] == rest;
    } else {
      OnePoint(rest[0]);
      BytesPlus(current, [rest[0]]);
      GroupsAreSound(current + [rest[0]], rest[1..], budget);
      assert current + [rest[0]] + rest[1..] == current + rest;
    }
  }

  lemma OnePoint(p: Text16)
    ensures Bytes([p]) == Utf8Bytes(p) <= 4
  {
  }

  lemma BytesSplit(g: seq<Text16>, i: nat)
    requires i <= |g|
    ensures Bytes(g) == Bytes(g[..i]) + Bytes(g[i..])
  {
    assert g == g[..i] + g[i..];
    BytesPlus(g[..i], g[i..]);
  }

  /** A part of a group is no longer than the group. */
  lemma BytesOfPart(g: seq<Text16>, i: nat, j: nat)
    requires i <= j <= |g|
    ensures Bytes(g[i..j]) <= Bytes(g)
  {
    hide Bytes;
    BytesSplit(g, i);
    BytesSplit(g[i..], j - i);
    assert g[i..][..j - i] == g[i..j];
  }

  /** Where a group and the next code point stand in the whole. */
  lemma Located(whole: seq<Text16>, k: nat, current: seq<Text16>, rest: seq<Text16>, part: seq<Text16>)
    requires k <= |whole| && whole[k..] == current + rest && rest != [] && part == current + [rest[0]]
    ensures k + |part| <= |whole| && whole[k..k + |part|] == part
    ensures whole[k + |current|..] == rest
  {
    assert whole[k..k + |part|] == whole[k..][..|part|];
    assert whole[k + |current|..] == whole[k..][|current|..];
  }

  lemma WithinFirst(first: seq<Text16>, tail: seq<Text16>, i: nat, j: nat)
    requires i <= j <= |first|
    ensures (first + tail)[i..j] == first[i..j]
  {
  }

  lemma BeyondFirst(first: seq<Text16>, tail: seq<Text16>, whole: seq<Text16>, n: nat)
    requires whole == first + tail && |first| <= n <= |whole|
    ensures n - |first| <= |tail| && whole[n..] == tail[n - |first|..]
  {
  }

  lemma HoldsPart(first: seq<Text16>, tail: seq<Text16>, whole: seq<Text16>, k: nat, part: seq<Text16>)
    requires whole == first + tail && k + |part| <= |first| && whole[k..k + |part|] == part
    ensures Bytes(part) <= Bytes(first)
  {
    hide Bytes;
    WithinFirst(first, tail, k, k + |part|);
    BytesOfPart(first, k, k + |part|);
  }

  /** A full group forces a boundary: the first part ends no later, and the other parts cover what is left. */
  lemma FullGroup(current: seq<Text16>, rest: seq<Text16>, budget: int, first: seq<Text16>, tail: seq<Text16>,
      whole: seq<Text16>, k: nat)
    requires rest != [] && Bytes(current + [rest[0]]) > budget && Bytes(first) <= budget
    requires whole == first + tail && k <= |whole| && whole[k..] == current + rest
    ensures |first| <= k + |current| <= |whole| && tail[k + |current| - |first|..] == rest
  {
    var part := current + [rest[0]];
    Located(whole, k, current, rest, part);
    EndsInTime(first, tail, whole, k, part, budget);
    BeyondFirst(first, tail, whole, k + |current|);
  }

  lemma EndsInTime(first: seq<Text16>, tail: seq<Text16>, whole: seq<Text16>, k: nat, part: seq<Text16>, budget: int)
    requires whole == first + tail && k + |part| <= |whole| && whole[k..k + |part|] == part
    requires Bytes(part) > budget && Bytes(first) <= budget
    ensures |first| < k + |part|
  {
    if k + |part| <= |first| { HoldsPart(first, tail, whole, k, part); }
  }

  /** No grouping within the budget of a text that ends like this one uses fewer groups. */
  lemma {:induction false} GroupsAreFewest(current: seq<Text16>, rest: seq<Text16>, budget: int,
      parts: seq<seq<Text16>>, k: nat)
    requires budget >= 4 && Bytes(current) <= budget
    requires k <= |Flatten(parts)| && Flatten(parts)[k..] == current + rest
    requires forall g :: g in parts ==> Bytes(g) <= budget
    ensures |Groups(current, rest, budget)| <= |parts|
    decreases |rest|, |parts|
  {
    if rest != [] {
      OnePoint(rest[0]);
      if current != [] && Bytes(current) + Utf8Bytes(rest[0]) > budget {
        BytesPlus(current, [rest[0]]);
        FullGroup(current, rest, budget, parts[0], Flatten(parts[1..]), Flatten(parts), k);
        assert [rest[0]] + rest[1..] == rest;
        GroupsAreFewest([rest[0]], rest[1..], budget, parts[1..], k + |current| - |parts[0]|);
      } else {
        BytesPlus(current, [rest[0]]);
        assert current + [rest[0]] + rest[1..] == current + rest;
        GroupsAreFewest(current + [rest[0]], rest[1..], budget, parts, k);
      }
    } else if current != [] {
      assert parts != [];
    }
  }

  // ---------------------------------------------------------------- chunks of text

  function Texts(groups: seq<seq<Text16>>): seq<Text16> {
    seq(|groups|, i requires 0 <= i < |groups| => Concat(groups[i]))
  }

  function GroupsOf(chunks: seq<Text16>): seq<seq<Text16>> {
    seq(|chunks|, i requires 0 <= i < |chunks| => CodePoints(chunks[i]))
  }

  lemma {:induction false} FlattenGroupsOf(chunks: seq<Text16>)
    ensures Flatten(GroupsOf(chunks)) == PointsOf(chunks)
  {
    if chunks != [] {
      assert GroupsOf(chunks)[1..] == GroupsOf(chunks[1..]);
      FlattenGroupsOf(chunks[1..]);
    }
  }

  lemma {:induction false} TextsOfGroups(groups: seq<seq<Text16>>)
    requires forall g, p :: g in groups && p in g ==> IsScalar(p)
    ensures PointsOf(Texts(groups)) == Flatten(groups) && Concat(Texts(groups)) == Concat(Flatten(groups))
    ensures forall i :: 0 <= i < |groups| ==> CodePoints(Texts(groups)[i]) == groups[i]
  {
    forall i | 0 <= i < |groups| ensures CodePoints(Texts(groups)[i]) == groups[i] {
      CodePointsOfScalars(groups[i]);
    }
    if groups != [] {
      assert Texts(groups)[1..] == Texts(groups[1..]);
      TextsOfGroups(groups[1..]);
      ConcatPlus(groups[0], Flatten(groups[1..]));
    }
  }

  lemma {:induction false} InFlatten(groups: seq<seq<Text16>>, g: seq<Text16>, p: Text16)
    requires g in groups && p in g
    ensures p in Flatten(groups)
  {
    if g != groups[0] { InFlatten(groups[1..], g, p); }
  }

  /** What `splitUtf8` returns for a well-formed text. */
  function Chunks(value: Text16, budget: int): seq<Text16> {
    if value == [] then [[]] else Texts(Groups([], CodePoints(value), budget))
  }

  /** The chunks are a split, none is empty unless the text is, and no split has fewer. */
  lemma ChunksAreBest(value: Text16, budget: int, other: seq<Text16>)
    requires budget >= 4 && WellFormed(value)
    ensures IsSplit(value, budget, Chunks(value, budget))
    ensures value != [] ==> [] !in Chunks(value, budget)
    ensures IsSplit(value, budget, other) ==> |Chunks(value, budget)| <= |other|
  {
    var points := CodePoints(value);
    ConcatCodePoints(value);
    GroupsAreSound([], points, budget);
    var groups := Groups([], points, budget);
    assert [] + points == points;
    if value != [] {
      forall g, p | g in groups && p in g ensures IsScalar(p) {
        InFlatten(groups, g, p);
      }
      TextsOfGroups(groups);
      ChunksFit(groups, budget);
    }
    if IsSplit(value, budget, other) && value != [] {
      FlattenGroupsOf(other);
      assert Flatten(GroupsOf(other))[0..] == points;
      GroupsAreFewest([], points, budget, GroupsOf(other), 0);
    }
  }

  lemma ChunksFit(groups: seq<seq<Text16>>, budget: int)
    requires forall i :: 0 <= i < |groups| ==> CodePoints(Texts(groups)[i]) == groups[i]
    requires forall g :: g in groups ==> g != [] && Bytes(g) <= budget
    ensures forall c :: c in Texts(groups) ==> c != [] && Bytes(CodePoints(c)) <= budget
  {
    forall c | c in Texts(groups) ensures c != [] && Bytes(CodePoints(c)) <= budget {
      var i :| 0 <= i < |groups| && Texts(groups)[i] == c;
      assert groups[i] in groups;
    }
  }

  /** `splitUtf8`: lossless, whole code points, within the budget, no empty chunk, and as few chunks as possible. */
  method SplitUtf8(value: Text16, maxBytes: int) returns (r: Result<seq<Text16>>)
    ensures r.Err? <==> maxBytes < 4 || maxBytes > MAX_SAFE || !WellFormed(value)
    ensures r.Err? ==> r.code == INVALID_ARGUMENT
    ensures r.Ok? ==> IsSplit(value, maxBytes, r.value) && (value != [] ==> [] !in r.value)
    ensures r.Ok? ==> forall other :: IsSplit(value, maxBytes, other) ==> |r.value| <= |other|
  {
    if maxBytes < 4 || maxBytes > MAX_SAFE { return Err(INVALID_ARGUMENT); }
    var chunks: seq<Text16>, current: Text16, currentBytes := [], [], 0;
    ghost var groups: seq<seq<Text16>>, group: seq<Text16> := [], [];
    var rest := value;
    while |rest| > 0
      invariant Groups([], CodePoints(value), maxBytes) == groups + Groups(group, CodePoints(rest), maxBytes)
      invariant chunks == Texts(groups) && current == Concat(group) && currentBytes == Bytes(group)
      invariant (current == [] <==> group == []) && (rest == value ==> groups == [] && group == [])
      invariant forall p :: p in CodePoints(value) ==> p in CodePoints(rest) || IsScalar(p)
      invariant forall p :: p in CodePoints(rest) ==> p in CodePoints(value)
      decreases |rest|
    {
      var point := FirstCodePoint(rest);
      ghost var points := CodePoints(rest);
      assert points[0] == point && points[1..] == CodePoints(rest[|point|..]);
      assert point in points;
      if |point| == 1 && (High(point[0]) || Low(point[0])) {
        return Err(INVALID_ARGUMENT);
      }
      var bytes := Utf8Bytes(point);
      GroupStep(groups, group, points, maxBytes);
      if |current| > 0 && currentBytes + bytes > maxBytes {
        chunks, current, currentBytes := chunks + [current], [], 0;
        groups, group := groups + [group], [];
      }
      AppendPoint(group, point);
      current, currentBytes := current + point, currentBytes + bytes;
      group := group + [point];
      rest := rest[|point|..];
    }
    if |current| > 0 || |value| == 0 { chunks := chunks + [current]; }
    assert chunks == Chunks(value, maxBytes);
    hide Groups, IsSplit;
    forall other ensures IsSplit(value, maxBytes, chunks) && (value != [] ==> [] !in chunks)
      && (IsSplit(value, maxBytes, other) ==> |chunks| <= |other|)
    {
      ChunksAreBest(value, maxBytes, other);
    }
    return Ok(chunks);
  }

  lemma GroupStep(groups: seq<seq<Text16>>, group: seq<Text16>, points: seq<Text16>, budget: int)
    requires points != []
    ensures groups + Groups(group, points, budget) ==
      if group != [] && Bytes(group) + Utf8Bytes(points[0]) > budget
      then groups + [group] + Groups([] + [points[0]], points[1..], budget)
      else groups + Groups(group + [points[0]], points[1..], budget)
  {
    assert [] + [points[0]] == [points[0]];
  }

  lemma AppendPoint(group: seq<Text16>, point: Text16)
    ensures Concat(group + [point]) == Concat(group) + point
      && Bytes(group + [point]) == Bytes(group) + Utf8Bytes(point)
  {
    ConcatPlus(group, [point]);
    BytesPlus(group, [point]);
    OnePoint(point);
  }
}
