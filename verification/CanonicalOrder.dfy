/**
 * What canonical texts tell apart: exactly the JSON values that differ in more than the order of keys
 * (shared/web-audit/src/model.ts:157-165, shared/control-plane/src/idempotency.ts:23-30).
 */
module CanonicalOrder {
  import opened Bridge
  import opened Utf16
  import opened CanonicalJson
  import opened CanonicalProofs

  /** An object as a finite map. */
  function MapOf(m: Members): map<Text16, Value> {
    match m
    case NoMembers => map[]
    case Member(k, v, rest) => MapOf(rest)[k := v]
  }

  /** Objects have distinct keys, at every depth. */
  predicate Valid(v: Value) {
    match v
    case Arr(items) => ValidItems(items)
    case Obj(members) => ValidMembers(members)
    case _ => true
  }

  predicate ValidItems(items: Items) {
    items.Item? ==> Valid(items.head) && ValidItems(items.rest)
  }

  predicate ValidMembers(m: Members) {
    m.Member? ==> Valid(m.value) && ValidMembers(m.rest) && m.key !in MapOf(m.rest)
  }

  /** The same JSON value: arrays position by position, objects key by key in any order. */
  predicate Same(a: Value, b: Value) {
    match a
    case Arr(items) => b.Arr? && SameItems(items, b.items)
    case Obj(members) => b.Obj? && MapOf(members).Keys == MapOf(b.members).Keys
      && SameMembers(members, MapOf(b.members))
    case _ => a == b
  }

  predicate SameItems(xs: Items, ys: Items) {
    match xs
    case NoItems => ys.NoItems?
    case Item(v, rest) => ys.Item? && Same(v, ys.head) && SameItems(rest, ys.rest)
  }

  predicate SameMembers(m: Members, other: map<Text16, Value>) {
    match m
    case NoMembers => true
    case Member(k, v, rest) => k in other && Same(v, other[k]) && SameMembers(rest, other)
  }

  // ---------------------------------------------------------------- sorting loses nothing but order

  lemma {:induction false} BeforeTotal(a: Text16, b: Text16)
    ensures a == b || Before(a, b) || Before(b, a)
    ensures !(Before(a, b) && Before(b, a)) && !Before(a, a)
  {
    if a != [] { BeforeTotal(a[1..], a[1..]); }
    if a != [] && b != [] && a[0] == b[0] {
      BeforeTotal(a[1..], b[1..]);
      assert a == [a[0]] + a[1..] && b == [b[0]] + b[1..];
    }
  }

  lemma {:induction false} BeforeTransitive(a: Text16, b: Text16, c: Text16)
    requires Before(a, b) && Before(b, c)
    ensures Before(a, c)
  {
    if a != [] && a[0] == b[0] == c[0] {
      BeforeTransitive(a[1..], b[1..], c[1..]);
    }
  }

  predicate Sorted(m: Members) {
    m.Member? ==> Sorted(m.rest) && (m.rest.Member? ==> Before(m.key, m.rest.key))
  }

  lemma {:induction false} InsertSorted(k: Text16, v: Value, m: Members)
    requires Sorted(m) && k !in MapOf(m)
    ensures Sorted(InsertMember(k, v, m)) && MapOf(InsertMember(k, v, m)) == MapOf(m)[k := v]
  {
    if m.Member? {
      BeforeTotal(k, m.key);
      hide Before;
      if !Before(k, m.key) {
        InsertSorted(k, v, m.rest);
        assert MapOf(m.rest)[k := v][m.key := m.value] == MapOf(m)[k := v];
      }
    }
  }

  lemma {:induction false} SortKeepsMap(m: Members)
    requires ValidMembers(m)
    ensures Sorted(SortMembers(m)) && MapOf(SortMembers(m)) == MapOf(m)
  {
    if m.Member? {
      SortKeepsMap(m.rest);
      InsertSorted(m.key, m.value, SortMembers(m.rest));
    }
  }

  lemma {:induction false} FirstIsLeast(m: Members, k: Text16)
    requires Sorted(m) && m.Member? && k in MapOf(m)
    ensures k == m.key || Before(m.key, k)
  {
    if k != m.key {
      FirstIsLeast(m.rest, k);
      if k != m.rest.key { BeforeTransitive(m.key, m.rest.key, k); }
    }
  }

  lemma KeyNotInRest(m: Members)
    requires Sorted(m) && m.Member?
    ensures m.key !in MapOf(m.rest)
  {
    BeforeTotal(m.key, m.key);
    if m.rest.Member? && m.key in MapOf(m.rest) {
      FirstIsLeast(m.rest, m.key);
      BeforeTotal(m.key, m.rest.key);
    }
  }

  /** A sorted list of members is determined by the map it stands for. */
  lemma {:induction false} SortedUnique(a: Members, b: Members)
    requires Sorted(a) && Sorted(b) && MapOf(a) == MapOf(b)
    ensures a == b
  {
    HasItsKey(a);
    HasItsKey(b);
    if a.Member? && b.Member? {
      assert a.key in MapOf(b) && b.key in MapOf(a);
      FirstIsLeast(a, b.key);
      FirstIsLeast(b, a.key);
      BeforeTotal(a.key, b.key);
      KeyNotInRest(a);
      KeyNotInRest(b);
      assert MapOf(a.rest) == MapOf(a) - {a.key};
      assert MapOf(b.rest) == MapOf(b) - {b.key};
      SortedUnique(a.rest, b.rest);
    }
  }

  lemma HasItsKey(m: Members)
    ensures m.Member? ==> m.key in MapOf(m)
  {
  }

  lemma {:induction false} NormalMap(m: Members)
    requires ValidMembers(m)
    ensures MapOf(NormalMembers(m)).Keys == MapOf(m).Keys
    ensures forall k :: k in MapOf(m) ==> MapOf(NormalMembers(m))[k] == Normal(MapOf(m)[k])
  {
    if m.Member? { NormalMap(m.rest); }
  }

  lemma {:induction false} NormalIsValid(v: Value)
    requires Valid(v)
    ensures Valid(Normal(v))
    decreases v
  {
    match v {
      case Arr(items) => NormalItemsValid(items);
      case Obj(members) =>
        NormalMembersValid(members);
        SortValid(NormalMembers(members));
      case _ =>
    }
  }

  lemma {:induction false} NormalItemsValid(items: Items)
    requires ValidItems(items)
    ensures ValidItems(NormalItems(items))
    decreases items
  {
    if items.Item? { NormalIsValid(items.head); NormalItemsValid(items.rest); }
  }

  lemma {:induction false} NormalMembersValid(m: Members)
    requires ValidMembers(m)
    ensures ValidMembers(NormalMembers(m))
    decreases m
  {
    if m.Member? {
      NormalIsValid(m.value);
      NormalMembersValid(m.rest);
      NormalMap(m.rest);
    }
  }

  lemma {:induction false} InsertValid(k: Text16, v: Value, m: Members)
    requires ValidMembers(m) && Valid(v) && k !in MapOf(m)
    ensures ValidMembers(InsertMember(k, v, m)) && MapOf(InsertMember(k, v, m)) == MapOf(m)[k := v]
  {
    hide Valid;
    if m.Member? && !Before(k, m.key) {
      assert m.key != k && k !in MapOf(m.rest);
      InsertValid(k, v, m.rest);
      assert MapOf(m.rest)[k := v][m.key := m.value] == MapOf(m)[k := v];
    }
  }

  lemma {:induction false} SortValid(m: Members)
    requires ValidMembers(m)
    ensures ValidMembers(SortMembers(m)) && MapOf(SortMembers(m)) == MapOf(m)
  {
    if m.Member? {
      SortValid(m.rest);
      InsertValid(m.key, m.value, SortMembers(m.rest));
    }
  }

  // ---------------------------------------------------------------- normal forms decide sameness

  lemma {:induction false} NormalDecides(a: Value, b: Value)
    requires Valid(a) && Valid(b)
    ensures Normal(a) == Normal(b) <==> Same(a, b)
    decreases a
  {
    match a {
      case Arr(items) => if b.Arr? { ItemsDecide(items, b.items); }
      case Obj(members) =>
        if b.Obj? {
          ObjectsDecide(members, b.members);
          MembersDecide(members, b.members);
        }
      case _ =>
    }
  }

  lemma {:induction false} ItemsDecide(xs: Items, ys: Items)
    requires ValidItems(xs) && ValidItems(ys)
    ensures NormalItems(xs) == NormalItems(ys) <==> SameItems(xs, ys)
    decreases xs
  {
    if xs.Item? && ys.Item? {
      NormalDecides(xs.head, ys.head);
      ItemsDecide(xs.rest, ys.rest);
    }
  }

  /** Equal at every key, once normal. */
  ghost predicate AgreeNormal(a: map<Text16, Value>, b: map<Text16, Value>) {
    forall k :: k in a ==> k in b && Normal(a[k]) == Normal(b[k])
  }

  lemma {:induction false} MembersDecide(a: Members, b: Members)
    requires ValidMembers(a) && ValidMembers(b)
    ensures SameMembers(a, MapOf(b)) <==> AgreeNormal(MapOf(a), MapOf(b))
    decreases a
  {
    if a.Member? {
      MembersDecide(a.rest, b);
      if a.key in MapOf(b) {
        ValueIsValid(b, a.key);
        NormalDecides(a.value, MapOf(b)[a.key]);
      }
      assert forall k :: k in MapOf(a) <==> k == a.key || k in MapOf(a.rest);
      assert forall k :: k in MapOf(a.rest) ==> MapOf(a)[k] == MapOf(a.rest)[k];
    }
  }

  lemma {:induction false} ValueIsValid(m: Members, k: Text16)
    requires ValidMembers(m) && k in MapOf(m)
    ensures Valid(MapOf(m)[k])
  {
    if k != m.key { ValueIsValid(m.rest, k); }
  }

  lemma MapsDecide(a: map<Text16, Value>, b: map<Text16, Value>, na: map<Text16, Value>, nb: map<Text16, Value>)
    requires na.Keys == a.Keys && nb.Keys == b.Keys
    requires (forall k :: k in a ==> na[k] == Normal(a[k])) && (forall k :: k in b ==> nb[k] == Normal(b[k]))
    ensures na == nb <==> a.Keys == b.Keys && AgreeNormal(a, b)
  {
    hide Normal;
    assert na == nb ==> forall k :: k in a ==> k in na && na[k] == nb[k];
  }

  lemma ObjectsDecide(a: Members, b: Members)
    requires ValidMembers(a) && ValidMembers(b)
    ensures Normal(Obj(a)) == Normal(Obj(b)) <==> MapOf(a).Keys == MapOf(b).Keys && AgreeNormal(MapOf(a), MapOf(b))
  {
    hide AgreeNormal, MapOf, SortMembers, NormalMembers, Sorted, ValidMembers;
    var na, nb := NormalMembers(a), NormalMembers(b);
    NormalMembersValid(a);
    NormalMembersValid(b);
    SortKeepsMap(na);
    SortKeepsMap(nb);
    NormalMap(a);
    NormalMap(b);
    MapsDecide(MapOf(a), MapOf(b), MapOf(na), MapOf(nb));
    if MapOf(na) == MapOf(nb) { SortedUnique(SortMembers(na), SortMembers(nb)); }
  }

  // ---------------------------------------------------------------- the theorems

  lemma {:induction false} NormalIsJson(v: Value)
    ensures IsJson(Normal(v)) <==> IsJson(v)
    decreases v
  {
    match v {
      case Arr(items) => NormalItemsJson(items);
      case Obj(members) =>
        NormalMembersJson(members);
        SortJson(NormalMembers(members));
      case _ =>
    }
  }

  lemma {:induction false} NormalItemsJson(items: Items)
    ensures ItemsAreJson(NormalItems(items)) <==> ItemsAreJson(items)
    decreases items
  {
    if items.Item? { NormalIsJson(items.head); NormalItemsJson(items.rest); }
  }

  lemma {:induction false} NormalMembersJson(m: Members)
    ensures MembersAreJson(NormalMembers(m)) <==> MembersAreJson(m)
    decreases m
  {
    if m.Member? { NormalIsJson(m.value); NormalMembersJson(m.rest); }
  }

  lemma {:induction false} SortJson(m: Members)
    ensures MembersAreJson(SortMembers(m)) <==> MembersAreJson(m)
  {
    if m.Member? {
      SortJson(m.rest);
      InsertJson(m.key, m.value, SortMembers(m.rest));
    }
  }

  lemma {:induction false} InsertJson(k: Text16, v: Value, m: Members)
    ensures MembersAreJson(InsertMember(k, v, m)) <==> IsJson(v) && MembersAreJson(m)
  {
    if m.Member? && !Before(k, m.key) { InsertJson(k, v, m.rest); }
  }

  lemma PrintDecides(num: Printer, a: Value, b: Value)
    requires PrintsNumbers(num) && Valid(a) && Valid(b) && IsJson(a) && IsJson(b)
    ensures Print(num, Normal(a)) == Print(num, Normal(b)) <==> Same(a, b)
  {
    NormalIsJson(a);
    NormalIsJson(b);
    NormalDecides(a, b);
    hide Print, Normal, Same;
    if Print(num, Normal(a)) == Print(num, Normal(b)) {
      Unambiguous(num, Normal(a), Normal(b), [], []);
    }
  }

  /** `canonical` gives two values the same text exactly when they are the same JSON value up to key order. */
  lemma CanonicalDecides(num: Printer, a: Value, b: Value)
    requires PrintsNumbers(num) && Valid(a) && Valid(b) && Canonical(num, a).Some? && Canonical(num, b).Some?
    ensures Canonical(num, a) == Canonical(num, b) <==> Same(a, b)
  {
    PrintDecides(num, a, b);
  }

  lemma {:induction false} CleanIsJson(v: Value)
    ensures IsJson(Clean(v)) && (Valid(v) ==> Valid(Clean(v))) && (IsJson(v) ==> Clean(v) == v)
    decreases v
  {
    match v {
      case Arr(items) => CleanItemsJson(items);
      case Obj(members) => CleanMembersJson(members);
      case _ =>
    }
  }

  lemma {:induction false} CleanItemsJson(items: Items)
    ensures ItemsAreJson(CleanItems(items)) && (ValidItems(items) ==> ValidItems(CleanItems(items)))
    ensures ItemsAreJson(items) ==> CleanItems(items) == items
    decreases items
  {
    if items.Item? { CleanIsJson(items.head); CleanItemsJson(items.rest); }
  }

  lemma {:induction false} CleanMembersJson(m: Members)
    ensures MembersAreJson(CleanMembers(m)) && (ValidMembers(m) ==> ValidMembers(CleanMembers(m)))
    ensures MapOf(CleanMembers(m)).Keys <= MapOf(m).Keys
    ensures MembersAreJson(m) ==> CleanMembers(m) == m
    decreases m
  {
    if m.Member? { CleanIsJson(m.value); CleanMembersJson(m.rest); }
  }

  /** `stableStringify` identifies two values exactly when they are the same once cleaned. */
  lemma StableDecides(num: Printer, a: Value, b: Value)
    requires PrintsNumbers(num) && Valid(a) && Valid(b)
    ensures StableStringify(num, a) == StableStringify(num, b) <==> Same(Clean(a), Clean(b))
  {
    CleanIsJson(a);
    CleanIsJson(b);
    PrintDecides(num, Clean(a), Clean(b));
  }

  /** On JSON values the two printers agree, so `stableStringify` is injective up to key order there. */
  lemma StableIsCanonical(num: Printer, v: Value)
    requires IsJson(v)
    ensures Canonical(num, v) == Some(StableStringify(num, v))
  {
    CleanIsJson(v);
  }

  /** An undefined property, and a null in place of NaN, are not told apart from their absence and from null. */
  lemma StableCollides(num: Printer)
    ensures StableStringify(num, Obj(Member([97], Undefined, NoMembers))) == StableStringify(num, Obj(NoMembers))
    ensures StableStringify(num, NonFinite) == StableStringify(num, Null)
    ensures !Same(Obj(Member([97], Undefined, NoMembers)), Obj(NoMembers)) && !Same(NonFinite, Null)
  {
    assert [97] in MapOf(Member([97], Undefined, NoMembers));
  }
}
