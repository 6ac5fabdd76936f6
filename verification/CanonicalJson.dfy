/**
 The canonical text that a context binding hashes (EmbeddedContextProtocol.cs): object members in
 ordinal order, numbers by their canonical key. Two accepted values have the same canonical text
 exactly when they are semantically equal.
 */
module CanonicalJson {
  import opened Decimal
  import opened DecimalOrder
  import opened JsonTree
  import opened OrdinalOrder

  /** A value with its members sorted and its numbers replaced by their keys. */
  datatype Canon =
    | CNull
    | CBool(value: bool)
    | CNum(key: string)
    | CStr(text: string)
    | CArr(items: seq<Canon>)
    | CObj(entries: seq<Entry<Canon>>)

  function Canonicalize(v: Json): Canon
    requires Accepted(v)
    decreases v
  {
    match v
    case Null => CNull
    case Bool(b) => CBool(b)
    case Num(raw) => CNum(Key(TryNormalize(raw).value))
    case Str(text) => CStr(text)
    case Arr(items) => CArr(seq(|items|, i requires 0 <= i < |items| => Canonicalize(items[i])))
    case Obj(members) => CObj(Sort(Entries(v)))
  }

  /** The members of an object in the order they are written, with canonical values. */
  function Entries(v: Json): (r: seq<Entry<Canon>>)
    requires Accepted(v) && v.Obj?
    ensures |r| == |v.members|
    ensures forall i | 0 <= i < |r| :: r[i] == Entry(v.members[i].name, Canonicalize(v.members[i].value))
    decreases v, 0
  {
    seq(|v.members|, i requires 0 <= i < |v.members| =>
      Entry(v.members[i].name, Canonicalize(v.members[i].value)))
  }

  // ---- equality is equality of canonical trees -----------------------------------------------

  lemma EqualKeys(a: NumberText, b: NumberText)
    requires TryNormalize(a).Some? && TryNormalize(b).Some?
    ensures Compare(TryNormalize(a).value, TryNormalize(b).value) == 0
      <==> Key(TryNormalize(a).value) == Key(TryNormalize(b).value)
  {
    CompareNumbersIsTotalOrder(a, b, b);
    KeysDecideEquality(a, b);
  }

  /** Sorted entries are equal exactly when every member of one object is a member of the other. */
  lemma SortedEntriesAgree(a: Json, b: Json)
    requires Accepted(a) && Accepted(b) && a.Obj? && b.Obj?
    ensures Sort(Entries(a)) == Sort(Entries(b))
      <==> |a.members| == |b.members| && forall i | 0 <= i < |a.members| :: Entries(a)[i] in Entries(b)
  {
    var x, y := Entries(a), Entries(b);
    SortSorts(x);
    SortSorts(y);
    SortedMembers(x);
    SortedMembers(y);
    if Sort(x) == Sort(y) {
      assert |multiset(x)| == |multiset(y)|;
    } else if |x| == |y| && forall i | 0 <= i < |x| :: x[i] in y {
      SubsetOfSameSize(x, y);
      forall e ensures e in Sort(x) <==> e in Sort(y) {}
      SortedIsUnique(Sort(x), Sort(y));
    }
  }

  lemma SortedMembers(x: seq<Entry<Canon>>)
    ensures forall e :: e in Sort(x) <==> e in x
    ensures |Sort(x)| == |x|
  {
    SortSorts(x);
    forall e ensures e in Sort(x) <==> e in x {
      assert e in multiset(x) <==> e in x;
      assert e in multiset(Sort(x)) <==> e in Sort(x);
    }
    assert |multiset(Sort(x))| == |multiset(x)|;
  }

  ghost function Elements(x: seq<Entry<Canon>>): set<Entry<Canon>> {
    if x == [] then {} else Elements(x[..|x| - 1]) + {x[|x| - 1]}
  }

  lemma {:induction false} ElementsCount(x: seq<Entry<Canon>>)
    ensures forall e :: e in Elements(x) <==> e in x
    ensures Distinct(x) ==> |Elements(x)| == |x|
    decreases |x|
  {
    if x != [] {
      var k := |x| - 1;
      ElementsCount(x[..k]);
      assert x == x[..k] + [x[k]];
    }
  }

  lemma SameSizeSubset<T>(small: set<T>, large: set<T>)
    requires small <= large && |small| == |large|
    ensures small == large
  {
    assert |large - small| == |large| - |small|;
  }

  lemma SubsetOfSameSize(x: seq<Entry<Canon>>, y: seq<Entry<Canon>>)
    requires Distinct(x) && Distinct(y) && |x| == |y| && forall i | 0 <= i < |x| :: x[i] in y
    ensures forall e :: e in x <==> e in y
  {
    ElementsCount(x);
    ElementsCount(y);
    SameSizeSubset(Elements(x), Elements(y));
  }

  /** A named member with a given canonical value is an entry, and the other way round. */
  lemma EntryIsMember(b: Json, name: string, value: Canon)
    requires Accepted(b) && b.Obj?
    ensures Entry(name, value) in Entries(b)
      <==> Has(b.members, name) && Canonicalize(Get(b.members, name)) == value
  {
    if Entry(name, value) in Entries(b) {
      var k :| 0 <= k < |Entries(b)| && Entries(b)[k] == Entry(name, value);
      GetIs(b.members, k);
    }
    if Has(b.members, name) {
      var k := IndexOf(b.members, name);
      assert Entries(b)[k] == Entry(name, Canonicalize(Get(b.members, name)));
    }
  }

  /** Semantic equality is equality of canonical trees. */
  lemma {:induction false} EqualsIffCanonical(left: Json, right: Json)
    requires Accepted(left) && Accepted(right)
    ensures SemanticallyEquals(left, right) <==> Canonicalize(left) == Canonicalize(right)
    decreases left
  {
    match (left, right)
    case (Num(a), Num(b)) =>
      EqualKeys(a, b);
    case (Arr(a), Arr(b)) =>
      ArraysAgree(left, right);
    case (Obj(a), Obj(b)) =>
      ObjectsAgree(left, right);
    case _ =>
  }

  lemma {:induction false} ArraysAgree(left: Json, right: Json)
    requires Accepted(left) && Accepted(right) && left.Arr? && right.Arr?
    ensures SemanticallyEquals(left, right) <==> Canonicalize(left) == Canonicalize(right)
    decreases left, 0
  {
    var a, b := left.items, right.items;
    var x, y := Canonicalize(left).items, Canonicalize(right).items;
    if |a| == |b| {
      forall i | 0 <= i < |a| ensures SemanticallyEquals(a[i], b[i]) <==> x[i] == y[i] {
        EqualsIffCanonical(a[i], b[i]);
      }
      assert x == y <==> forall i | 0 <= i < |a| :: x[i] == y[i];
    }
  }

  lemma {:induction false} ObjectsAgree(left: Json, right: Json)
    requires Accepted(left) && Accepted(right) && left.Obj? && right.Obj?
    ensures SemanticallyEquals(left, right) <==> Canonicalize(left) == Canonicalize(right)
    decreases left, 0
  {
    var a, b := left.members, right.members;
    SortedEntriesAgree(left, right);
    forall i | 0 <= i < |a|
      ensures (Has(b, a[i].name) && SemanticallyEquals(a[i].value, Get(b, a[i].name)))
        <==> Entries(left)[i] in Entries(right)
    {
      EntryIsMember(right, a[i].name, Canonicalize(a[i].value));
      if Has(b, a[i].name) {
        EqualsIffCanonical(a[i].value, Get(b, a[i].name));
      }
    }
  }

  /** So semantic equality is an equivalence. */
  lemma EqualityIsEquivalence(x: Json, y: Json, z: Json)
    requires Accepted(x) && Accepted(y) && Accepted(z)
    ensures SemanticallyEquals(x, x)
    ensures SemanticallyEquals(x, y) <==> SemanticallyEquals(y, x)
    ensures SemanticallyEquals(x, y) && SemanticallyEquals(y, z) ==> SemanticallyEquals(x, z)
  {
    EqualsIffCanonical(x, x);
    EqualsIffCanonical(x, y);
    EqualsIffCanonical(y, x);
    EqualsIffCanonical(y, z);
    EqualsIffCanonical(x, z);
  }

  // ---- what equality means -------------------------------------------------------------------

  /** The object has a member of that name, equal to that value. */
  ghost predicate HasEqual(v: Json, name: string, value: Json)
    requires Accepted(v) && v.Obj? && Accepted(value)
  {
    exists j | 0 <= j < |v.members| :: v.members[j].name == name && SemanticallyEquals(value, v.members[j].value)
  }

  /** Every member of the one has an equal member of its name in the other, and no name is missing. */
  ghost predicate SameMembers(v: Json, w: Json)
    requires Accepted(v) && Accepted(w) && v.Obj? && w.Obj?
  {
    && (forall i | 0 <= i < |v.members| :: HasEqual(w, v.members[i].name, v.members[i].value))
    && NamesOf(w.members) <= NamesOf(v.members)
  }

  /** Numbers by value, texts and booleans by themselves, lists item by item, objects whatever their order. */
  lemma EqualityMeans(v: Json, w: Json)
    requires Accepted(v) && Accepted(w)
    ensures SemanticallyEquals(v, w) <==>
      || (v.Null? && w.Null?)
      || (v.Bool? && w.Bool? && v.value == w.value)
      || (v.Str? && w.Str? && v.text == w.text)
      || (v.Num? && w.Num? && ValueOf(v.raw) == ValueOf(w.raw))
      || (v.Arr? && w.Arr? && |v.items| == |w.items|
          && forall i | 0 <= i < |v.items| :: SemanticallyEquals(v.items[i], w.items[i]))
      || (v.Obj? && w.Obj? && SameMembers(v, w))
  {
    if v.Num? && w.Num? {
      CompareNumbersIsTotalOrder(v.raw, w.raw, w.raw);
    } else if v.Obj? && w.Obj? {
      ObjectsEqual(v, w);
    }
  }

  lemma ObjectsEqual(v: Json, w: Json)
    requires Accepted(v) && Accepted(w) && v.Obj? && w.Obj?
    ensures SemanticallyEquals(v, w) <==> SameMembers(v, w)
  {
    if SemanticallyEquals(v, w) {
      EqualHaveSameMembers(v, w);
    }
    if SameMembers(v, w) {
      SameMembersAreEqual(v, w);
    }
  }

  lemma HasEqualIs(v: Json, name: string, value: Json)
    requires Accepted(v) && v.Obj? && Accepted(value)
    ensures HasEqual(v, name, value) <==> Has(v.members, name) && SemanticallyEquals(value, Get(v.members, name))
  {
    if Has(v.members, name) {
      assert v.members[IndexOf(v.members, name)].name == name;
    }
    if j :| 0 <= j < |v.members| && v.members[j].name == name && SemanticallyEquals(value, v.members[j].value) {
      GetIs(v.members, j);
    }
  }

  lemma EqualHaveSameMembers(v: Json, w: Json)
    requires Accepted(v) && Accepted(w) && v.Obj? && w.Obj? && SemanticallyEquals(v, w)
    ensures SameMembers(v, w)
  {
    EqualityIsEquivalence(v, w, w);
    forall i | 0 <= i < |v.members| ensures HasEqual(w, v.members[i].name, v.members[i].value) {
      HasEqualIs(w, v.members[i].name, v.members[i].value);
    }
    forall j | 0 <= j < |w.members| ensures w.members[j].name in NamesOf(v.members) {
      assert Has(v.members, w.members[j].name);
      assert v.members[IndexOf(v.members, w.members[j].name)].name == w.members[j].name;
    }
  }

  lemma SameMembersAreEqual(v: Json, w: Json)
    requires Accepted(v) && Accepted(w) && v.Obj? && w.Obj? && SameMembers(v, w)
    ensures SemanticallyEquals(v, w)
  {
    forall i | 0 <= i < |v.members|
      ensures Has(w.members, v.members[i].name)
        && SemanticallyEquals(v.members[i].value, Get(w.members, v.members[i].name))
    {
      HasEqualIs(w, v.members[i].name, v.members[i].value);
    }
    SameNamesSameSize(v.members, w.members);
  }

  lemma SameNamesSameSize(a: seq<Member>, b: seq<Member>)
    requires NamesDistinct(a) && NamesDistinct(b) && NamesOf(b) <= NamesOf(a)
    requires forall i | 0 <= i < |a| :: Has(b, a[i].name)
    ensures |a| == |b|
  {
    NamesCount(a);
    NamesCount(b);
    forall i | 0 <= i < |a| ensures a[i].name in NamesOf(b) {
      assert b[IndexOf(b, a[i].name)].name == a[i].name;
    }
    assert NamesOf(a) == NamesOf(b);
  }

  ghost function NamesOf(members: seq<Member>): set<string> {
    set i | 0 <= i < |members| :: members[i].name
  }

  lemma {:induction false} NamesCount(members: seq<Member>)
    requires NamesDistinct(members)
    ensures |NamesOf(members)| == |members|
  {
    if members != [] {
      var k := |members| - 1;
      NamesCount(members[..k]);
      assert NamesOf(members) == NamesOf(members[..k]) + {members[k].name};
    }
  }
}
