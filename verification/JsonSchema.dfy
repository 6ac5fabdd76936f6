/**
 EmbeddedJsonSchema.cs: which schemas a capability may carry, and when an instance matches one.
 Verdicts depend only on the semantic value of the instance, and a match is closed at every depth.
 */
module JsonSchema {
  import opened Optional
  import opened Decimal
  import opened DecimalOrder
  import opened JsonTree
  import opened CanonicalJson

  const KEYWORDS: seq<string> := [
    "$schema", "$id", "title", "description", "type", "properties", "required", "additionalProperties",
    "items", "minItems", "maxItems", "minLength", "maxLength", "minimum", "maximum", "enum", "const"
  ]

  const METADATA: seq<string> := ["$schema", "$id", "title", "description"]

  predicate IsKeyword(name: string) { exists k | 0 <= k < |KEYWORDS| :: KEYWORDS[k] == name }

  datatype Type = ObjectType | ArrayType | StringType | NumberType | IntegerType | BooleanType | NullType

  function TypeOf(s: Json): Option<Type> {
    match Lookup(s, "type")
    case Some(Str(text)) => NamedType(text)
    case _ => None
  }

  function NamedType(text: string): Option<Type> {
    if text == "object" then Some(ObjectType)
    else if text == "array" then Some(ArrayType)
    else if text == "string" then Some(StringType)
    else if text == "number" then Some(NumberType)
    else if text == "integer" then Some(IntegerType)
    else if text == "boolean" then Some(BooleanType)
    else if text == "null" then Some(NullType)
    else None
  }

  predicate TypeMatches(v: Json, t: Type)
    requires Accepted(v)
  {
    match t
    case ObjectType => v.Obj?
    case ArrayType => v.Arr?
    case StringType => v.Str?
    case NumberType => v.Num?
    case IntegerType => v.Num? && IsInteger(TryNormalize(v.raw).value)
    case BooleanType => v.Bool?
    case NullType => v.Null?
  }

  // ---- schemas -------------------------------------------------------------------------------

  predicate IsWhiteSpace(c: char) {
    var u := c as int;
    9 <= u <= 13 || u == 0x20 || u == 0x85 || u == 0xA0 || u == 0x1680 || 0x2000 <= u <= 0x200A
    || u == 0x2028 || u == 0x2029 || u == 0x202F || u == 0x205F || u == 0x3000
  }

  predicate MetadataOk(s: Json, name: string) {
    match Lookup(s, name)
    case None => true
    case Some(Str(text)) => exists i | 0 <= i < |text| :: !IsWhiteSpace(text[i])
    case _ => false
  }

  /** `TryGetInt32`: a plain integer literal within 32 bits. */
  function Int32Of(v: Json): Option<int> {
    if !v.Num? then None
    else
      var l := Split(v.raw);
      if l.fraction.Some? || l.exponent.Some? then None
      else
        var magnitude: int := DigitsValue(l.whole);
        var value := if l.negative then -magnitude else magnitude;
        if -0x8000_0000 <= value <= 0x7FFF_FFFF then Some(value) else None
  }

  predicate CountOk(s: Json, name: string, applicable: bool) {
    match Lookup(s, name)
    case None => true
    case Some(v) => applicable && Int32Of(v).Some? && Int32Of(v).value >= 0
  }

  /** `ValidateIntegerRange`. */
  predicate CountRangeOk(s: Json, minimum: string, maximum: string, applicable: bool) {
    && CountOk(s, minimum, applicable) && CountOk(s, maximum, applicable)
    && (Lookup(s, minimum).Some? && Lookup(s, maximum).Some? ==>
          Int32Of(Lookup(s, minimum).value).value <= Int32Of(Lookup(s, maximum).value).value)
  }

  /** `ValidateNumberRange`. */
  predicate NumberRangeOk(s: Json, minimum: string, maximum: string, applicable: bool)
    requires Accepted(s)
  {
    && (Lookup(s, minimum).Some? ==> applicable && Lookup(s, minimum).value.Num?)
    && (Lookup(s, maximum).Some? ==> applicable && Lookup(s, maximum).value.Num?)
    && (Lookup(s, minimum).Some? && Lookup(s, maximum).Some? ==>
          Compare(TryNormalize(Lookup(s, minimum).value.raw).value,
                  TryNormalize(Lookup(s, maximum).value.raw).value) <= 0)
  }

  predicate RequiredOk(required: Json, properties: Json) {
    && required.Arr? && properties.Obj?
    && (forall i | 0 <= i < |required.items| ::
          required.items[i].Str? && required.items[i].text != "" && Has(properties.members, required.items[i].text))
    && (forall i, j | 0 <= i < j < |required.items| :: required.items[i] != required.items[j])
  }

  predicate ValuesOk(s: Json, t: Type)
    requires Accepted(s)
  {
    && (match Lookup(s, "enum")
        case None => true
        case Some(Arr(items)) => 1 <= |items| <= 100 && forall i | 0 <= i < |items| :: TypeMatches(items[i], t)
        case _ => false)
    && (Lookup(s, "const").Some? ==> TypeMatches(Lookup(s, "const").value, t))
  }

  datatype Support = Supported | Unsupported

  /** `ValidateSchemaNode`, apart from the nesting limit: whether it throws. */
  function SchemaNode(s: Json): Support
    requires Accepted(s)
    decreases s
  {
    if
      && s.Obj?
      && (forall i | 0 <= i < |s.members| :: IsKeyword(s.members[i].name))
      && TypeOf(s).Some?
      && (forall k | 0 <= k < |METADATA| :: MetadataOk(s, METADATA[k]))
      && var t := TypeOf(s).value;
      && (t.ObjectType? ==> Lookup(s, "properties").Some? && Lookup(s, "additionalProperties").Some?)
      && (match Lookup(s, "properties")
          case None => true
          case Some(p) =>
            t.ObjectType? && p.Obj? && forall i | 0 <= i < |p.members| :: SchemaNode(p.members[i].value).Supported?)
      && (Lookup(s, "required").Some? ==>
            && t.ObjectType? && Lookup(s, "properties").Some?
            && RequiredOk(Lookup(s, "required").value, Lookup(s, "properties").value))
      && (Lookup(s, "additionalProperties").Some? ==>
            t.ObjectType? && Lookup(s, "additionalProperties").value == Bool(false))
      && (match Lookup(s, "items")
          case None => !t.ArrayType?
          case Some(items) => t.ArrayType? && SchemaNode(items).Supported?)
      && CountRangeOk(s, "minItems", "maxItems", t.ArrayType?)
      && CountRangeOk(s, "minLength", "maxLength", t.StringType?)
      && NumberRangeOk(s, "minimum", "maximum", t.NumberType? || t.IntegerType?)
      && ValuesOk(s, t)
    then Supported else Unsupported
  }

  predicate SchemaOk(s: Json)
    requires Accepted(s)
  {
    SchemaNode(s).Supported?
  }

  /** The nesting limit of `ValidateSchemaNode`. */
  predicate NestingOk(s: Json, depth: nat)
    decreases s
  {
    && depth <= MAXIMUM_DEPTH
    && (match Lookup(s, "properties")
        case Some(Obj(members)) => forall i | 0 <= i < |members| :: NestingOk(members[i].value, depth + 1)
        case _ => true)
    && (match Lookup(s, "items")
        case Some(items) => NestingOk(items, depth + 1)
        case None => true)
  }

  predicate ValidateSchema(s: Json)
    requires Accepted(s)
  {
    SchemaOk(s) && NestingOk(s, 0)
  }

  /** The type to whose values a keyword applies, if it does not apply to all. */
  ghost predicate AppliesTo(keyword: string, t: Type) {
    if keyword == "properties" || keyword == "required" || keyword == "additionalProperties" then t.ObjectType?
    else if keyword == "items" || keyword == "minItems" || keyword == "maxItems" then t.ArrayType?
    else if keyword == "minLength" || keyword == "maxLength" then t.StringType?
    else if keyword == "minimum" || keyword == "maximum" then t.NumberType? || t.IntegerType?
    else true
  }

  /** A schema never carries a constraint that it does not enforce: its keywords are known, and apply to its type. */
  lemma KeywordsApply(s: Json, i: nat)
    requires Accepted(s) && SchemaOk(s) && i < |s.members|
    ensures IsKeyword(s.members[i].name) && AppliesTo(s.members[i].name, TypeOf(s).value)
  {
    var name := s.members[i].name;
    GetIs(s.members, i);
    assert Lookup(s, name).Some?;
  }

  // ---- instances -----------------------------------------------------------------------------

  predicate Within(count: int, s: Json, minimum: string, maximum: string)
    requires CountOk(s, minimum, true) && CountOk(s, maximum, true)
  {
    && (Lookup(s, minimum).Some? ==> count >= Int32Of(Lookup(s, minimum).value).value)
    && (Lookup(s, maximum).Some? ==> count <= Int32Of(Lookup(s, maximum).value).value)
  }

  /** The values a schema singles out with `enum` and `const`. */
  predicate Listed(v: Json, s: Json)
    requires Accepted(v) && Accepted(s)
  {
    && (match Lookup(s, "enum")
        case Some(Arr(items)) => exists i | 0 <= i < |items| :: SemanticallyEquals(items[i], v)
        case _ => true)
    && (Lookup(s, "const").Some? ==> SemanticallyEquals(Lookup(s, "const").value, v))
  }

  predicate NumberWithin(v: Json, s: Json)
    requires Accepted(v) && v.Num? && Accepted(s)
    requires NumberRangeOk(s, "minimum", "maximum", true)
  {
    var n := TryNormalize(v.raw).value;
    && (Lookup(s, "minimum").Some? ==> Compare(n, TryNormalize(Lookup(s, "minimum").value.raw).value) >= 0)
    && (Lookup(s, "maximum").Some? ==> Compare(n, TryNormalize(Lookup(s, "maximum").value.raw).value) <= 0)
  }

  predicate RequiredPresent(members: seq<Member>, s: Json)
    requires Accepted(s) && SchemaOk(s) && TypeOf(s).value.ObjectType?
  {
    match Lookup(s, "required")
    case Some(names) => forall i | 0 <= i < |names.items| :: Has(members, names.items[i].text)
    case None => true
  }

  predicate Matches(v: Json, s: Json)
    requires Accepted(v) && Accepted(s) && SchemaOk(s)
    decreases s, 1
  {
    var t := TypeOf(s).value;
    && TypeMatches(v, t)
    && Listed(v, s)
    && match t
       case ObjectType =>
         && RequiredPresent(v.members, s)
         && (forall i | 0 <= i < |v.members| :: PropertyMatches(v.members[i].value, s, v.members[i].name))
       case ArrayType =>
         && Within(|v.items|, s, "minItems", "maxItems")
         && (forall i | 0 <= i < |v.items| :: ItemMatches(v.items[i], s))
       case StringType => Within(|v.text|, s, "minLength", "maxLength")
       case NumberType => NumberWithin(v, s)
       case IntegerType => NumberWithin(v, s)
       case _ => true
  }

  /** The schema that an object schema declares for a property name. */
  function Declared(s: Json, name: string): (r: Option<Json>)
    ensures r.Some? ==> r.value < s
    ensures r.Some? && Accepted(s) ==> Accepted(r.value)
    ensures r.Some? && Accepted(s) && SchemaOk(s) ==> SchemaOk(r.value)
  {
    match Lookup(s, "properties")
    case Some(properties) => Lookup(properties, name)
    case None => None
  }

  predicate ItemMatches(v: Json, s: Json)
    requires Accepted(v) && Accepted(s) && SchemaOk(s) && TypeOf(s).value.ArrayType?
    decreases s, 0
  {
    Matches(v, Lookup(s, "items").value)
  }

  predicate PropertyMatches(v: Json, s: Json, name: string)
    requires Accepted(v) && Accepted(s) && SchemaOk(s)
    decreases s, 0
  {
    match Declared(s, name)
    case Some(schema) => Matches(v, schema)
    case None => Lookup(s, "additionalProperties") != Some(Bool(false))
  }

  // ---- what a verdict means ------------------------------------------------------------------

  /** The type of a schema is the one whose name its `type` is. */
  lemma TypeNames(s: Json)
    ensures TypeOf(s) == Some(ObjectType) <==> Lookup(s, "type") == Some(Str("object"))
    ensures TypeOf(s) == Some(ArrayType) <==> Lookup(s, "type") == Some(Str("array"))
    ensures TypeOf(s) == Some(StringType) <==> Lookup(s, "type") == Some(Str("string"))
    ensures TypeOf(s) == Some(NumberType) <==> Lookup(s, "type") == Some(Str("number"))
    ensures TypeOf(s) == Some(IntegerType) <==> Lookup(s, "type") == Some(Str("integer"))
    ensures TypeOf(s) == Some(BooleanType) <==> Lookup(s, "type") == Some(Str("boolean"))
    ensures TypeOf(s) == Some(NullType) <==> Lookup(s, "type") == Some(Str("null"))
  {
  }

  /** The value is of a type's kind; an integer is a number that is whole. */
  ghost predicate IsKind(v: Json, t: Type) {
    && (t.ObjectType? <==> v.Obj?) && (t.ArrayType? <==> v.Arr?) && (t.StringType? <==> v.Str?)
    && (t.BooleanType? <==> v.Bool?) && (t.NullType? <==> v.Null?)
    && (t.NumberType? || t.IntegerType? <==> v.Num?)
    && (t.IntegerType? && v.Num? ==> IsWhole(ValueOf(v.raw)))
  }

  /** With an `enum`, the value equals one of its items; with a `const`, it equals that. */
  ghost predicate IsAllowed(v: Json, s: Json)
    requires Accepted(v) && Accepted(s)
  {
    && (forall values | Lookup(s, "enum") == Some(values) ::
          values.Arr? && exists i | 0 <= i < |values.items| :: SemanticallyEquals(values.items[i], v))
    && (forall c | Lookup(s, "const") == Some(c) :: SemanticallyEquals(c, v))
  }

  /** The bounds that there are, as numbers, hold of a length. */
  ghost predicate LengthWithin(length: int, s: Json, minimum: string, maximum: string) {
    && (forall bound | Lookup(s, minimum) == Some(bound) :: bound.Num? && ValueOf(bound.raw) <= length as real)
    && (forall bound | Lookup(s, maximum) == Some(bound) :: bound.Num? && length as real <= ValueOf(bound.raw))
  }

  /** A number at least as large as another, the other way round for zero against a fraction. */
  ghost predicate ListedAtLeast(x: real, y: real) {
    if ZeroAgainstFraction(x, y) then x < y else x >= y
  }

  ghost predicate ValueWithin(v: Json, s: Json)
    requires v.Num?
  {
    && (forall bound | Lookup(s, "minimum") == Some(bound) ::
          bound.Num? && ListedAtLeast(ValueOf(v.raw), ValueOf(bound.raw)))
    && (forall bound | Lookup(s, "maximum") == Some(bound) ::
          bound.Num? && ListedAtLeast(ValueOf(bound.raw), ValueOf(v.raw)))
  }

  /** Every required name is that of a member. */
  ghost predicate HasRequired(v: Json, s: Json)
    requires v.Obj?
  {
    forall names | Lookup(s, "required") == Some(names) ::
      names.Arr? && forall i | 0 <= i < |names.items| ::
        names.items[i].Str? && exists k | 0 <= k < |v.members| :: v.members[k].name == names.items[i].text
  }

  /** Every member is declared, and matches the schema it is declared with. */
  ghost predicate MembersMatch(v: Json, s: Json)
    requires Accepted(v) && Accepted(s) && SchemaOk(s) && v.Obj? && TypeOf(s) == Some(ObjectType)
  {
    forall i | 0 <= i < |v.members| :: MatchesDeclared(v.members[i].value, s, v.members[i].name)
  }

  ghost predicate MatchesDeclared(v: Json, s: Json, name: string)
    requires Accepted(v) && Accepted(s) && SchemaOk(s)
  {
    Declared(s, name).Some? && Matches(v, Declared(s, name).value)
  }

  ghost predicate ItemsMatch(v: Json, s: Json)
    requires Accepted(v) && Accepted(s) && SchemaOk(s) && v.Arr? && TypeOf(s) == Some(ArrayType)
  {
    forall i | 0 <= i < |v.items| :: MatchesItems(v.items[i], s)
  }

  ghost predicate MatchesItems(v: Json, s: Json)
    requires Accepted(v) && Accepted(s) && SchemaOk(s) && TypeOf(s) == Some(ArrayType)
  {
    Matches(v, Lookup(s, "items").value)
  }

  /** Everything a schema asks of an instance: its kind, its values, its bounds and its parts. */
  ghost predicate Conforms(v: Json, s: Json, t: Type)
    requires Accepted(v) && Accepted(s) && SchemaOk(s) && TypeOf(s) == Some(t)
  {
    && IsKind(v, t) && IsAllowed(v, s)
    && (t.ObjectType? ==> HasRequired(v, s) && MembersMatch(v, s))
    && (t.ArrayType? ==> LengthWithin(|v.items|, s, "minItems", "maxItems") && ItemsMatch(v, s))
    && (t.StringType? ==> LengthWithin(|v.text|, s, "minLength", "maxLength"))
    && (v.Num? ==> ValueWithin(v, s))
  }

  lemma KindIs(v: Json, t: Type)
    requires Accepted(v)
    ensures TypeMatches(v, t) <==> IsKind(v, t)
  {
    if v.Num? {
      IntegerIs(v.raw);
    }
  }

  lemma IntegerIs(raw: NumberText)
    requires TryNormalize(raw).Some?
    ensures IsInteger(TryNormalize(raw).value) <==> IsWhole(ValueOf(raw))
  {
    NormalizePreservesValue(Split(raw));
    IntegerTestIsExact(TryNormalize(raw).value);
  }

  lemma AllowedIs(v: Json, s: Json)
    requires Accepted(v) && Accepted(s) && TypeOf(s).Some? && ValuesOk(s, TypeOf(s).value)
    ensures Listed(v, s) <==> IsAllowed(v, s)
  {
  }

  /** A 32-bit count is the number it denotes. */
  lemma CountIs(v: Json)
    requires Int32Of(v).Some?
    ensures v.Num? && ValueOf(v.raw) == Int32Of(v).value as real
  {
    var l := Split(v.raw);
    assert FractionDigits(l) == "" && ExponentValue(l) == 0;
    assert LiteralValue(l) == Signed(l.negative, DigitsValue(l.whole) as real);
  }

  lemma LengthIs(length: int, s: Json, minimum: string, maximum: string)
    requires CountOk(s, minimum, true) && CountOk(s, maximum, true)
    ensures Within(length, s, minimum, maximum) <==> LengthWithin(length, s, minimum, maximum)
  {
    if Lookup(s, minimum).Some? {
      CountIs(Lookup(s, minimum).value);
    }
    if Lookup(s, maximum).Some? {
      CountIs(Lookup(s, maximum).value);
    }
  }

  lemma ComparesAtLeast(v: NumberText, bound: NumberText)
    requires TryNormalize(v).Some? && TryNormalize(bound).Some?
    ensures Compare(TryNormalize(v).value, TryNormalize(bound).value) >= 0
      <==> ListedAtLeast(ValueOf(v), ValueOf(bound))
    ensures Compare(TryNormalize(v).value, TryNormalize(bound).value) <= 0
      <==> ListedAtLeast(ValueOf(bound), ValueOf(v))
  {
    BoundsAreNumericExcept(v, bound);
  }

  lemma ValueIs(v: Json, s: Json)
    requires Accepted(v) && v.Num? && Accepted(s) && NumberRangeOk(s, "minimum", "maximum", true)
    ensures NumberWithin(v, s) <==> ValueWithin(v, s)
  {
    if Lookup(s, "minimum").Some? {
      ComparesAtLeast(v.raw, Lookup(s, "minimum").value.raw);
    }
    if Lookup(s, "maximum").Some? {
      ComparesAtLeast(v.raw, Lookup(s, "maximum").value.raw);
    }
  }

  lemma HasIs(members: seq<Member>, name: string)
    ensures Has(members, name) <==> exists k | 0 <= k < |members| :: members[k].name == name
  {
    if Has(members, name) {
      assert members[IndexOf(members, name)].name == name;
    }
  }

  lemma RequiredIs(v: Json, s: Json)
    requires v.Obj? && Accepted(s) && SchemaOk(s) && TypeOf(s).value.ObjectType?
    ensures RequiredPresent(v.members, s) <==> HasRequired(v, s)
  {
    if Lookup(s, "required").Some? {
      var names := Lookup(s, "required").value.items;
      forall i | 0 <= i < |names|
        ensures Has(v.members, names[i].text)
          <==> exists k | 0 <= k < |v.members| :: v.members[k].name == names[i].text
      {
        HasIs(v.members, names[i].text);
      }
    }
  }

  /** Only one member has a name. */
  lemma OneMember(members: seq<Member>, name: string)
    requires NamesDistinct(members)
    ensures forall j | 0 <= j < |members| && members[j].name == name :: j == IndexOf(members, name)
  {
    forall j | 0 <= j < |members| && members[j].name == name ensures j == IndexOf(members, name) {
      GetIs(members, j);
    }
  }

  /** A name is declared with the value of the one property of that name. */
  lemma DeclaredIs(s: Json, name: string, schema: Json)
    requires Accepted(s)
    ensures Declared(s, name) == Some(schema) <==>
      exists p, j | Lookup(s, "properties") == Some(p) && p.Obj? && 0 <= j < |p.members| ::
        p.members[j] == Member(name, schema)
  {
    match Lookup(s, "properties")
    case Some(p) =>
      if p.Obj? {
        HasIs(p.members, name);
        OneMember(p.members, name);
        if Has(p.members, name) {
          assert p.members[IndexOf(p.members, name)] == Member(name, Get(p.members, name));
        }
      }
    case None =>
  }

  /** A schema accepts exactly the instances that conform to everything it says. */
  lemma MatchesMeans(v: Json, s: Json)
    requires Accepted(v) && Accepted(s) && SchemaOk(s)
    ensures Matches(v, s) <==> Conforms(v, s, TypeOf(s).value)
  {
    KindIs(v, TypeOf(s).value);
    AllowedIs(v, s);
    match TypeOf(s).value
    case ObjectType =>
      if v.Obj? { RequiredIs(v, s); }
    case ArrayType => if v.Arr? { LengthIs(|v.items|, s, "minItems", "maxItems"); }
    case StringType => if v.Str? { LengthIs(|v.text|, s, "minLength", "maxLength"); }
    case NumberType => if v.Num? { ValueIs(v, s); }
    case IntegerType => if v.Num? { ValueIs(v, s); }
    case _ =>
  }

  // ---- verdicts respect equality -------------------------------------------------------------

  lemma EqualNumbersNormalizeAlike(v: Json, w: Json)
    requires Accepted(v) && Accepted(w) && v.Num? && w.Num? && SemanticallyEquals(v, w)
    ensures TryNormalize(v.raw) == TryNormalize(w.raw)
  {
    CompareNumbersIsTotalOrder(v.raw, w.raw, w.raw);
    NormalizePreservesValue(Split(v.raw));
    NormalizePreservesValue(Split(w.raw));
    CanonicalIsUnique(TryNormalize(v.raw).value, TryNormalize(w.raw).value);
  }

  lemma TypesTransfer(v: Json, w: Json, t: Type)
    requires Accepted(v) && Accepted(w) && SemanticallyEquals(v, w) && TypeMatches(v, t)
    ensures TypeMatches(w, t)
  {
    if v.Num? {
      EqualNumbersNormalizeAlike(v, w);
    }
  }

  lemma ListedTransfers(v: Json, w: Json, s: Json)
    requires Accepted(v) && Accepted(w) && Accepted(s) && SemanticallyEquals(v, w) && Listed(v, s)
    ensures Listed(w, s)
  {
    match Lookup(s, "enum") {
      case Some(Arr(items)) =>
        var i :| 0 <= i < |items| && SemanticallyEquals(items[i], v);
        EqualityIsEquivalence(items[i], v, w);
      case _ =>
    }
    if Lookup(s, "const").Some? {
      EqualityIsEquivalence(Lookup(s, "const").value, v, w);
    }
  }

  /** Equal objects have the same names, with equal values. */
  lemma MembersCorrespond(v: Json, w: Json, name: string)
    requires Accepted(v) && Accepted(w) && v.Obj? && w.Obj? && SemanticallyEquals(v, w)
    ensures Has(v.members, name) <==> Has(w.members, name)
    ensures Has(v.members, name) ==> SemanticallyEquals(Get(v.members, name), Get(w.members, name))
  {
    EqualityIsEquivalence(v, w, v);
    if Has(v.members, name) {
      assert v.members[IndexOf(v.members, name)].name == name;
    }
    if Has(w.members, name) {
      assert w.members[IndexOf(w.members, name)].name == name;
    }
  }

  /** A match carries over to every semantically equal instance. */
  lemma {:induction false} MatchTransfers(v: Json, w: Json, s: Json)
    requires Accepted(v) && Accepted(w) && Accepted(s) && SchemaOk(s)
    requires SemanticallyEquals(v, w) && Matches(v, s)
    ensures Matches(w, s)
    decreases s
  {
    var t := TypeOf(s).value;
    TypesTransfer(v, w, t);
    ListedTransfers(v, w, s);
    match t
    case ObjectType => ObjectTransfers(v, w, s);
    case ArrayType =>
      forall i | 0 <= i < |w.items| ensures Matches(w.items[i], Lookup(s, "items").value) {
        MatchTransfers(v.items[i], w.items[i], Lookup(s, "items").value);
      }
    case NumberType => EqualNumbersNormalizeAlike(v, w);
    case IntegerType => EqualNumbersNormalizeAlike(v, w);
    case _ =>
  }

  lemma {:induction false} ObjectTransfers(v: Json, w: Json, s: Json)
    requires Accepted(v) && Accepted(w) && Accepted(s) && SchemaOk(s) && TypeOf(s) == Some(ObjectType)
    requires v.Obj? && w.Obj? && SemanticallyEquals(v, w) && Matches(v, s)
    ensures RequiredPresent(w.members, s)
    ensures forall i | 0 <= i < |w.members| :: PropertyMatches(w.members[i].value, s, w.members[i].name)
    decreases s, 0
  {
    if Lookup(s, "required").Some? {
      var items := Lookup(s, "required").value.items;
      forall i | 0 <= i < |items| ensures Has(w.members, items[i].text) {
        MembersCorrespond(v, w, items[i].text);
      }
    }
    forall i | 0 <= i < |w.members| ensures PropertyMatches(w.members[i].value, s, w.members[i].name) {
      var name := w.members[i].name;
      GetIs(w.members, i);
      MembersCorrespond(v, w, name);
      var j := IndexOf(v.members, name);
      assert PropertyMatches(v.members[j].value, s, name);
      if Declared(s, name).Some? {
        MatchTransfers(v.members[j].value, w.members[i].value, Declared(s, name).value);
      }
    }
  }

  /** Semantically equal instances get the same verdict from every valid schema. */
  lemma VerdictsRespectEquality(v: Json, w: Json, s: Json)
    requires Accepted(v) && Accepted(w) && Accepted(s) && ValidateSchema(s)
    requires SemanticallyEquals(v, w)
    ensures Matches(v, s) <==> Matches(w, s)
  {
    EqualityIsEquivalence(v, w, v);
    if Matches(v, s) { MatchTransfers(v, w, s); }
    if Matches(w, s) { MatchTransfers(w, v, s); }
  }

  // ---- matches are closed --------------------------------------------------------------------

  /** Every property, at every depth, is one the schema declares at that place. */
  predicate Closed(v: Json, s: Json)
    decreases v
  {
    match v
    case Obj(members) =>
      forall i | 0 <= i < |members| ::
        Declared(s, members[i].name).Some? && Closed(members[i].value, Declared(s, members[i].name).value)
    case Arr(items) =>
      Lookup(s, "items").Some? && forall i | 0 <= i < |items| :: Closed(items[i], Lookup(s, "items").value)
    case _ => true
  }

  /** A valid schema accepts nothing it does not declare. */
  lemma {:induction false} MatchesAreClosed(v: Json, s: Json)
    requires Accepted(v) && Accepted(s) && SchemaOk(s) && Matches(v, s)
    ensures Closed(v, s)
    decreases v
  {
    match v
    case Obj(members) =>
      forall i | 0 <= i < |members|
        ensures Declared(s, members[i].name).Some? && Closed(members[i].value, Declared(s, members[i].name).value)
      {
        assert PropertyMatches(members[i].value, s, members[i].name);
        MatchesAreClosed(members[i].value, Declared(s, members[i].name).value);
      }
    case Arr(items) =>
      forall i | 0 <= i < |items| ensures Closed(items[i], Lookup(s, "items").value) {
        MatchesAreClosed(items[i], Lookup(s, "items").value);
      }
    case _ =>
  }

  // ---- numeric bounds ------------------------------------------------------------------------

  /** One number is zero and the other lies strictly between zero and one. */
  ghost predicate ZeroAgainstFraction(x: real, y: real) {
    (x == 0.0 && 0.0 < y < 1.0) || (y == 0.0 && 0.0 < x < 1.0)
  }

  /** A bound is applied as a numeric bound exactly when it is not zero against a fraction. */
  lemma BoundsAreNumericExcept(v: NumberText, bound: NumberText)
    requires TryNormalize(v).Some? && TryNormalize(bound).Some?
    ensures var c := Compare(TryNormalize(v).value, TryNormalize(bound).value);
      && ((c >= 0 <==> ValueOf(v) >= ValueOf(bound)) <==> !ZeroAgainstFraction(ValueOf(v), ValueOf(bound)))
      && ((c <= 0 <==> ValueOf(v) <= ValueOf(bound)) <==> !ZeroAgainstFraction(ValueOf(v), ValueOf(bound)))
  {
    CompareNumbersIsTotalOrder(v, bound, bound);
    CompareNumbersIsTotalOrder(bound, v, v);
  }

  /** So a minimum of zero turns away every value between zero and one, and a maximum of zero admits it. */
  lemma ZeroBoundMisreadsFraction(v: Json, s: Json)
    requires Accepted(v) && v.Num? && 0.0 < ValueOf(v.raw) < 1.0
    requires Accepted(s) && SchemaOk(s) && TypeOf(s) == Some(NumberType)
    ensures Lookup(s, "minimum").Some? && ValueOf(Lookup(s, "minimum").value.raw) == 0.0 ==> !Matches(v, s)
    ensures Lookup(s, "minimum").None? && Listed(v, s) && Lookup(s, "maximum").Some? ==>
      (ValueOf(Lookup(s, "maximum").value.raw) == 0.0 ==> Matches(v, s))
  {
    assert Matches(v, s) <==> Listed(v, s) && NumberWithin(v, s);
    ValueIs(v, s);
    if Lookup(s, "minimum").Some? && ValueOf(Lookup(s, "minimum").value.raw) == 0.0 {
      ZeroAgainst(v, Lookup(s, "minimum").value);
    }
    if Lookup(s, "maximum").Some? && ValueOf(Lookup(s, "maximum").value.raw) == 0.0 {
      ZeroAgainst(v, Lookup(s, "maximum").value);
    }
  }

  lemma ZeroAgainst(v: Json, bound: Json)
    requires v.Num? && bound.Num? && 0.0 < ValueOf(v.raw) < 1.0 && ValueOf(bound.raw) == 0.0
    ensures !ListedAtLeast(ValueOf(v.raw), ValueOf(bound.raw)) && ListedAtLeast(ValueOf(bound.raw), ValueOf(v.raw))
  {
  }
}
