/**
 JSON values as the embedded host sees them, the bounds that BoundedJson.cs checks before anything
 else looks at a value, and the semantic equality of EmbeddedContextProtocol.cs.
 */
module JsonTree {
  import opened Optional
  import opened Searching
  import opened Decimal
  import opened DecimalOrder

  lemma ZeroIsLiteral()
    ensures IsLiteral("0")
  {
    SplitInverts(Literal(false, "0", None, None));
  }

  /** The raw text of a number element. */
  type NumberText = raw: string | IsLiteral(raw) ghost witness (ZeroIsLiteral(); "0")

  datatype Member = Member(name: string, value: Json)

  datatype Json =
    | Null
    | Bool(value: bool)
    | Num(raw: NumberText)
    | Str(text: string)
    | Arr(items: seq<Json>)
    | Obj(members: seq<Member>)

  // ---- bounds --------------------------------------------------------------------------------

  const MAXIMUM_DEPTH := 16
  const MAXIMUM_NODES := 20000
  const MAXIMUM_STRING_BYTES := 65536
  const MAXIMUM_NAME_BYTES := 200

  function Utf8Length(s: string): nat {
    if s == "" then 0
    else
      var c := s[|s| - 1] as int;
      Utf8Length(s[..|s| - 1]) + if c < 0x80 then 1 else if c < 0x800 then 2 else if c < 0x10000 then 3 else 4
  }

  predicate NameAllowed(name: string) {
    name != "__proto__" && name != "constructor" && name != "prototype" && Utf8Length(name) <= MAXIMUM_NAME_BYTES
  }

  predicate NamesDistinct(members: seq<Member>) {
    forall i, j | 0 <= i < j < |members| :: members[i].name != members[j].name
  }

  function Nodes(v: Json): (r: nat)
    ensures r >= 1
    decreases v, 0
  {
    match v
    case Arr(items) => 1 + NodesFrom(v, |items|)
    case Obj(members) => 1 + NodesFrom(v, |members|)
    case _ => 1
  }

  function Size(v: Json): nat {
    match v
    case Arr(items) => |items|
    case Obj(members) => |members|
    case _ => 0
  }

  function Child(v: Json, i: nat): (r: Json)
    requires i < Size(v)
    ensures r < v
  {
    if v.Arr? then v.items[i] else v.members[i].value
  }

  /** The nodes of the first `n` children. */
  function NodesFrom(v: Json, n: nat): nat
    requires n <= Size(v)
    decreases v, 0, n
  {
    if n == 0 then 0 else NodesFrom(v, n - 1) + Nodes(Child(v, n - 1))
  }

  /** Everything but the node count: names, strings, numbers and nesting. */
  predicate Shaped(v: Json, depth: nat)
    decreases v
  {
    && depth <= MAXIMUM_DEPTH
    && match v
       case Obj(members) =>
         && NamesDistinct(members)
         && (forall i | 0 <= i < |members| :: NameAllowed(members[i].name) && Shaped(members[i].value, depth + 1))
       case Arr(items) => forall i | 0 <= i < |items| :: Shaped(items[i], depth + 1)
       case Str(text) => Utf8Length(text) <= MAXIMUM_STRING_BYTES
       case Num(raw) => TryNormalize(raw).Some?
       case _ => true
  }

  /**
   `ValidateNode`, with its running node count and its set of names per object. It accepts exactly
   the shaped values that fit in the remaining node budget.
   */
  method ValidateNode(v: Json, depth: nat, nodes: nat) returns (ok: bool, count: nat)
    ensures ok <==> Shaped(v, depth) && nodes + Nodes(v) <= MAXIMUM_NODES
    ensures ok ==> count == nodes + Nodes(v)
    decreases v, 1
  {
    count := nodes + 1;
    if count > MAXIMUM_NODES || depth > MAXIMUM_DEPTH {
      return false, count;
    }
    match v
    case Obj(members) =>
      ok, count := ValidateMembers(v, depth, count);
    case Arr(items) =>
      ok, count := ValidateItems(v, depth, count);
    case Str(text) =>
      ok := Utf8Length(text) <= MAXIMUM_STRING_BYTES;
    case Num(raw) =>
      var number := NormalizeRaw(raw);
      ok := number.Some?;
    case _ =>
      ok := true;
  }

  /** The property loop of `ValidateNode`. */
  method ValidateMembers(v: Json, depth: nat, nodes: nat) returns (ok: bool, count: nat)
    requires v.Obj? && depth <= MAXIMUM_DEPTH && nodes <= MAXIMUM_NODES
    ensures ok <==> Shaped(v, depth) && nodes + NodesFrom(v, Size(v)) <= MAXIMUM_NODES
    ensures ok ==> count == nodes + NodesFrom(v, Size(v))
    decreases v, 0
  {
    var members := v.members;
    var names: set<string> := {};
    count := nodes;
    var i := 0;
    while i < |members|
      invariant 0 <= i <= |members|
      invariant AllDistinct(members[..i], names)
      invariant forall k | 0 <= k < i :: NameAllowed(members[k].name) && Shaped(members[k].value, depth + 1)
      invariant count == nodes + NodesFrom(v, i) <= MAXIMUM_NODES
    {
      if members[i].name in names {
        NameRepeats(members, i, names);
        return false, count;
      }
      if !NameAllowed(members[i].name) {
        return false, count;
      }
      AllStillDistinct(members, i, names);
      names := names + {members[i].name};
      assert Child(v, i) == members[i].value;
      ok, count := ValidateNode(members[i].value, depth + 1, count);
      if !ok {
        ChildrenCount(v, i);
        return;
      }
      i := i + 1;
    }
    assert members[..i] == members;
    ok := true;
  }

  /** The names met so far, no one twice. */
  ghost predicate AllDistinct(members: seq<Member>, names: set<string>) {
    NamesDistinct(members) && forall n :: n in names <==> exists k | 0 <= k < |members| :: members[k].name == n
  }

  lemma AllStillDistinct(members: seq<Member>, i: nat, names: set<string>)
    requires i < |members| && AllDistinct(members[..i], names) && members[i].name !in names
    ensures AllDistinct(members[..i + 1], names + {members[i].name})
  {
    var before, after := members[..i], members[..i + 1];
    assert after == before + [members[i]];
    forall k | 0 <= k < i ensures before[k].name in names {}
    forall n ensures n in names + {members[i].name} <==> exists k | 0 <= k < |after| :: after[k].name == n {
      if n == members[i].name {
        assert after[i].name == n;
      }
      if n in names {
        var k :| 0 <= k < i && before[k].name == n;
        assert after[k].name == n;
      }
    }
  }

  lemma NameRepeats(members: seq<Member>, i: nat, names: set<string>)
    requires i < |members| && AllDistinct(members[..i], names) && members[i].name in names
    ensures !NamesDistinct(members)
  {
    var k :| 0 <= k < i && members[..i][k].name == members[i].name;
    assert members[k].name == members[i].name;
  }

  /** The item loop of `ValidateNode`. */
  method ValidateItems(v: Json, depth: nat, nodes: nat) returns (ok: bool, count: nat)
    requires v.Arr? && depth <= MAXIMUM_DEPTH && nodes <= MAXIMUM_NODES
    ensures ok <==> Shaped(v, depth) && nodes + NodesFrom(v, Size(v)) <= MAXIMUM_NODES
    ensures ok ==> count == nodes + NodesFrom(v, Size(v))
    decreases v, 0
  {
    var items := v.items;
    count := nodes;
    var i := 0;
    while i < |items|
      invariant 0 <= i <= |items|
      invariant forall k | 0 <= k < i :: Shaped(items[k], depth + 1)
      invariant count == nodes + NodesFrom(v, i) <= MAXIMUM_NODES
    {
      assert Child(v, i) == items[i] && NodesFrom(v, i + 1) == NodesFrom(v, i) + Nodes(items[i]);
      ok, count := ValidateNode(items[i], depth + 1, count);
      if !ok {
        ChildrenCount(v, i);
        return;
      }
      i := i + 1;
    }
    ok := true;
  }

  /** Children after the i-th only add to the count. */
  lemma {:induction false} ChildrenCount(v: Json, i: nat)
    requires i < Size(v)
    ensures NodesFrom(v, i) + Nodes(Child(v, i)) <= NodesFrom(v, Size(v))
    decreases Size(v) - i
  {
    if i + 1 < Size(v) {
      ChildrenCount(v, i + 1);
    }
  }

  // ---- the bounds, place by place ------------------------------------------------------------

  /** The value at a place in the tree, given by the way from its root. */
  function ValueAt(v: Json, path: seq<nat>): Option<Json>
    decreases |path|
  {
    if path == [] then Some(v)
    else if path[0] < Size(v) then ValueAt(Child(v, path[0]), path[1..])
    else None
  }

  /** What is asked of one value, apart from its children. */
  ghost predicate FitsHere(v: Json) {
    && (v.Str? ==> Utf8Length(v.text) <= 65536)
    && (v.Num? ==> TryNormalize(v.raw).Some?)
    && (v.Obj? ==> NamesDistinct(v.members)
                   && forall i | 0 <= i < |v.members| :: NameAllowed(v.members[i].name))
  }

  /** A tree is shaped exactly if no place is deeper than 16 and every value fits where it is. */
  lemma ShapedMeans(v: Json)
    ensures Shaped(v, 0) <==>
      forall path: seq<nat> :: ValueAt(v, path).Some? ==> |path| <= 16 && FitsHere(ValueAt(v, path).value)
  {
    if Shaped(v, 0) {
      forall path: seq<nat> | ValueAt(v, path).Some? ensures |path| <= 16 && FitsHere(ValueAt(v, path).value) {
        ShapedAt(v, 0, path);
      }
    } else {
      var path := Misfit(v, 0);
    }
  }

  lemma {:induction false} ShapedAt(v: Json, depth: nat, path: seq<nat>)
    requires Shaped(v, depth) && ValueAt(v, path).Some?
    ensures depth + |path| <= 16 && FitsHere(ValueAt(v, path).value)
    decreases |path|
  {
    if path != [] {
      assert Shaped(Child(v, path[0]), depth + 1);
      ShapedAt(Child(v, path[0]), depth + 1, path[1..]);
    }
  }

  lemma ShapedByChildren(v: Json, depth: nat)
    ensures Shaped(v, depth) <==>
      depth <= 16 && FitsHere(v) && forall i: nat | i < Size(v) :: Shaped(Child(v, i), depth + 1)
  {
    assert v.Arr? ==> forall i | 0 <= i < |v.items| :: Child(v, i) == v.items[i];
    assert v.Obj? ==> forall i | 0 <= i < |v.members| :: Child(v, i) == v.members[i].value;
  }

  lemma {:induction false} Misfit(v: Json, depth: nat) returns (path: seq<nat>)
    requires !Shaped(v, depth)
    ensures ValueAt(v, path).Some? && !(depth + |path| <= 16 && FitsHere(ValueAt(v, path).value))
    decreases v
  {
    if depth > 16 || !FitsHere(v) {
      path := [];
    } else {
      ShapedByChildren(v, depth);
      var i: nat :| i < Size(v) && !Shaped(Child(v, i), depth + 1);
      var rest := Misfit(Child(v, i), depth + 1);
      path := [i] + rest;
      assert path[1..] == rest;
    }
  }

  /** Every place of the tree is counted as one node. */
  lemma {:induction false} NodesArePlaces(v: Json) returns (places: set<seq<nat>>)
    ensures |places| == Nodes(v)
    ensures forall path: seq<nat> :: path in places <==> ValueAt(v, path).Some?
    decreases v, 1
  {
    var below := ChildPlaces(v, Size(v));
    places := below + {[]};
    assert Nodes(v) == 1 + NodesFrom(v, Size(v));
    forall path: seq<nat> ensures path in places <==> ValueAt(v, path).Some? {}
  }

  /** The places in the first `n` children. */
  lemma {:induction false} ChildPlaces(v: Json, n: nat) returns (places: set<seq<nat>>)
    requires n <= Size(v)
    ensures |places| == NodesFrom(v, n)
    ensures forall path: seq<nat> :: path in places <==> path != [] && path[0] < n && ValueAt(v, path).Some?
    decreases v, 0, n
  {
    if n == 0 {
      places := {};
    } else {
      var before := ChildPlaces(v, n - 1);
      var inside := NodesArePlaces(Child(v, n - 1));
      var moved := Moved(inside, n - 1);
      MovedCount(inside, n - 1);
      places := before + moved;
      forall path: seq<nat> ensures path in moved <==> path != [] && path[0] == n - 1 && path[1..] in inside {
        MovedMeans(inside, n - 1, path);
      }
      assert before !! moved;
      LastChildPlaces(v, n, before, inside, places);
    }
  }

  /** The same places seen from one step further up. */
  ghost function Moved(places: set<seq<nat>>, i: nat): set<seq<nat>> { set path | path in places :: [i] + path }

  lemma LastChildPlaces(
    v: Json, n: nat, before: set<seq<nat>>, inside: set<seq<nat>>, places: set<seq<nat>>)
    requires 0 < n <= Size(v) && places == before + Moved(inside, n - 1)
    requires forall path: seq<nat> :: path in before <==> path != [] && path[0] < n - 1 && ValueAt(v, path).Some?
    requires forall path: seq<nat> :: path in inside <==> ValueAt(Child(v, n - 1), path).Some?
    ensures forall path: seq<nat> :: path in places <==> path != [] && path[0] < n && ValueAt(v, path).Some?
  {
    forall path: seq<nat> ensures path in places <==> path != [] && path[0] < n && ValueAt(v, path).Some? {
      MovedMeans(inside, n - 1, path);
      if path != [] && path[0] == n - 1 {
        assert ValueAt(v, path) == ValueAt(Child(v, n - 1), path[1..]);
      }
    }
  }

  lemma MovedMeans(places: set<seq<nat>>, i: nat, path: seq<nat>)
    ensures path in Moved(places, i) <==> path != [] && path[0] == i && path[1..] in places
  {
    if path != [] && path[0] == i {
      assert path == [i] + path[1..];
    }
  }

  lemma {:induction false} MovedCount(places: set<seq<nat>>, i: nat)
    ensures |Moved(places, i)| == |places|
    decreases |places|
  {
    if places != {} {
      var p :| p in places;
      var rest := places - {p};
      MovedCount(rest, i);
      forall path | path in rest ensures [i] + path != [i] + p {
        assert ([i] + path)[1..] == path && ([i] + p)[1..] == p;
      }
      assert Moved(places, i) == Moved(rest, i) + {[i] + p};
    }
  }

  /** A text is as long as its parts, and a character has one to four bytes by its code. */
  lemma {:induction false} Utf8LengthAdds(s: string, t: string)
    ensures Utf8Length(s + t) == Utf8Length(s) + Utf8Length(t)
    decreases |t|
  {
    if t == "" {
      assert s + t == s;
    } else {
      Utf8LengthAdds(s, t[..|t| - 1]);
      assert (s + t)[..|s + t| - 1] == s + t[..|t| - 1];
    }
  }

  lemma Utf8LengthOfOne(c: char)
    ensures var code := c as int;
      Utf8Length([c]) == if code >= 0x10000 then 4 else if code >= 0x800 then 3 else if code >= 0x80 then 2 else 1
  {
    assert [c][..0] == "";
  }

  // ---- equality ------------------------------------------------------------------------------

  datatype Verdict = Fit | Unfit

  function FitIf(condition: bool): Verdict { if condition then Fit else Unfit }

  /** What every value that passed the bounds can rely on: distinct names, readable numbers. */
  function Fitness(v: Json): Verdict {
    match v
    case Obj(members) =>
      FitIf(NamesDistinct(members) && forall i | 0 <= i < |members| :: Fitness(members[i].value).Fit?)
    case Arr(items) => FitIf(forall i | 0 <= i < |items| :: Fitness(items[i]).Fit?)
    case Num(raw) => FitIf(TryNormalize(raw).Some?)
    case _ => Fit
  }

  predicate Accepted(v: Json) { Fitness(v).Fit? }

  lemma {:induction false} ShapedIsAccepted(v: Json, depth: nat)
    requires Shaped(v, depth)
    ensures Accepted(v)
    decreases v
  {
    match v
    case Obj(members) =>
      forall i | 0 <= i < |members| ensures Accepted(members[i].value) {
        ShapedIsAccepted(members[i].value, depth + 1);
      }
    case Arr(items) =>
      forall i | 0 <= i < |items| ensures Accepted(items[i]) {
        ShapedIsAccepted(items[i], depth + 1);
      }
    case _ =>
  }

  /** The index of the member with a name; the length if there is none. */
  function IndexOf(members: seq<Member>, name: string): (r: nat)
    ensures r <= |members|
    ensures r < |members| ==> members[r].name == name
    ensures forall k | 0 <= k < r :: members[k].name != name
  {
    FirstIndex(members, (m: Member) => m.name == name)
  }

  predicate Has(members: seq<Member>, name: string) { IndexOf(members, name) < |members| }

  /** `TryGetProperty`: names are distinct, so the member found is the only one. */
  function Get(members: seq<Member>, name: string): Json
    requires Has(members, name)
  {
    members[IndexOf(members, name)].value
  }

  /** `TryGetProperty` on any value: nothing unless it is an object with that property. */
  function Lookup(v: Json, name: string): (r: Option<Json>)
    ensures r.Some? ==> r.value < v
    ensures r.Some? && Accepted(v) ==> Accepted(r.value)
  {
    if v.Obj? && Has(v.members, name) then Some(Get(v.members, name)) else None
  }

  lemma GetIs(members: seq<Member>, i: nat)
    requires NamesDistinct(members) && i < |members|
    ensures Has(members, members[i].name) && IndexOf(members, members[i].name) == i
  {
  }

  predicate SemanticallyEquals(left: Json, right: Json)
    requires Accepted(left) && Accepted(right)
    decreases left
  {
    match (left, right)
    case (Num(a), Num(b)) => Compare(TryNormalize(a).value, TryNormalize(b).value) == 0
    case (Obj(a), Obj(b)) =>
      && |a| == |b|
      && (forall i | 0 <= i < |a| :: Has(b, a[i].name) && SemanticallyEquals(a[i].value, Get(b, a[i].name)))
    case (Arr(a), Arr(b)) =>
      |a| == |b| && (forall i | 0 <= i < |a| :: SemanticallyEquals(a[i], b[i]))
    case (Str(a), Str(b)) => a == b
    case (Bool(a), Bool(b)) => a == b
    case (Null, Null) => true
    case _ => false
  }
}
