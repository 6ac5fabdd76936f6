/**
 `WriteCanonical`, `Project` and `CreateBinding` of EmbeddedContextProtocol.cs. The writer is the
 library's: it keeps the text written so far and whether the next value needs a comma.
 */
module ContextBinding {
  import opened Optional
  import opened Decimal
  import opened DecimalOrder
  import opened JsonTree
  import opened OrdinalOrder
  import opened CanonicalJson
  import opened CanonicalText

  /** The text whose SHA-256 hash is the binding. */
  function CanonicalTextOf(encode: Encoder, v: Json): string
    requires Accepted(v)
  {
    Render(encode, Canonicalize(v))
  }

  lemma KeyIsShaped(n: Number)
    requires Canonical(n)
    ensures KeyShaped(Key(n))
  {
    if n.digits != "0" {
      var head, text := (if n.negative then "-" else "") + n.digits, IntText(n.scale);
      IntTextIsKeyed(n.scale);
      assert forall i | 0 <= i < |head| :: KeyChar(head[i]);
      assert Key(n) == head + "e" + text;
      assert head[0] != 'e';
    }
  }

  lemma IntTextIsKeyed(x: int)
    ensures forall i | 0 <= i < |IntText(x)| :: KeyChar(IntText(x)[i])
  {
    NatTextReads(if x < 0 then -x else x);
  }

  lemma {:induction false} CanonicalIsKeyed(v: Json)
    requires Accepted(v)
    ensures Keyed(Canonicalize(v))
    decreases v
  {
    match v
    case Num(raw) =>
      NormalizePreservesValue(Split(raw));
      KeyIsShaped(TryNormalize(raw).value);
    case Arr(items) =>
      forall i | 0 <= i < |items| ensures Keyed(Canonicalize(items[i])) {
        CanonicalIsKeyed(items[i]);
      }
    case Obj(members) =>
      forall i | 0 <= i < |members| ensures Keyed(Canonicalize(members[i].value)) {
        CanonicalIsKeyed(members[i].value);
      }
      SortedMembers(Entries(v));
      var sorted := Sort(Entries(v));
      forall i | 0 <= i < |sorted| ensures Keyed(sorted[i].value) {
        assert sorted[i] in Entries(v);
      }
    case _ =>
  }

  /** Two accepted values have the same canonical text exactly when they are semantically equal. */
  lemma TextDecidesEquality(encode: Encoder, left: Json, right: Json)
    requires Faithful(encode) && Accepted(left) && Accepted(right)
    ensures CanonicalTextOf(encode, left) == CanonicalTextOf(encode, right) <==> SemanticallyEquals(left, right)
  {
    EqualsIffCanonical(left, right);
    CanonicalIsKeyed(left);
    CanonicalIsKeyed(right);
    var a, b := Canonicalize(left), Canonicalize(right);
    if Render(encode, a) == Render(encode, b) {
      assert Render(encode, a) + "" == Render(encode, b) + "";
      RenderEnds(encode, a, b, "", "");
    }
  }

  // ---- writing -------------------------------------------------------------------------------

  class JsonWriter {
    const encode: Encoder
    var text: string
    var pendingComma: bool

    constructor (encode: Encoder)
      ensures this.encode == encode && text == "" && !pendingComma
    {
      this.encode := encode;
      text, pendingComma := "", false;
    }

    method Separate()
      modifies this
      ensures text == old(text) + Separator(old(pendingComma)) && !pendingComma
    {
      if pendingComma {
        text := text + ",";
      }
      pendingComma := false;
    }

    method WriteToken(token: string)
      modifies this
      ensures text == old(text) + Separator(old(pendingComma)) + token && pendingComma
    {
      Separate();
      text := text + token;
      pendingComma := true;
    }

    method WriteStart(bracket: string)
      modifies this
      ensures text == old(text) + Separator(old(pendingComma)) + bracket && !pendingComma
    {
      Separate();
      text := text + bracket;
    }

    method WriteEnd(bracket: string)
      modifies this
      ensures text == old(text) + bracket && pendingComma
    {
      text := text + bracket;
      pendingComma := true;
    }

    method WritePropertyName(name: string)
      modifies this
      ensures text == old(text) + Separator(old(pendingComma)) + Quote(encode, name) + ":" && !pendingComma
    {
      Separate();
      text := text + Quote(encode, name) + ":";
    }
  }

  function Separator(pending: bool): string { if pending then "," else "" }

  function Properties(members: seq<Member>): (r: seq<Entry<Json>>)
    ensures |r| == |members|
    ensures forall i | 0 <= i < |r| :: r[i] == Entry(members[i].name, members[i].value)
  {
    seq(|members|, i requires 0 <= i < |members| => Entry(members[i].name, members[i].value))
  }

  /** Canonical values may be taken before or after sorting. */
  ghost predicate Corresponds(a: seq<Entry<Json>>, b: seq<Entry<Canon>>) {
    && |a| == |b|
    && (forall i | 0 <= i < |a| :: Accepted(a[i].value) && b[i] == Entry(a[i].name, Canonicalize(a[i].value)))
  }

  lemma {:induction false} InsertCorresponds(e: Entry<Json>, f: Entry<Canon>, a: seq<Entry<Json>>, b: seq<Entry<Canon>>)
    requires Corresponds(a, b) && Corresponds([e], [f])
    ensures Corresponds(Insert(e, a), Insert(f, b))
    decreases |a|
  {
    assert [f][0] == Entry([e][0].name, Canonicalize([e][0].value));
    if a != [] && !Less(e.name, a[0].name) {
      InsertCorresponds(e, f, a[1..], b[1..]);
    }
  }

  lemma {:induction false} SortCorresponds(a: seq<Entry<Json>>, b: seq<Entry<Canon>>)
    requires Corresponds(a, b)
    ensures Corresponds(Sort(a), Sort(b))
    decreases |a|
  {
    if a != [] {
      SortCorresponds(a[1..], b[1..]);
      InsertCorresponds(a[0], b[0], Sort(a[1..]), Sort(b[1..]));
    }
  }

  /** The sorted properties of an object: each is one of its members, with its canonical value. */
  lemma SortedProperties(v: Json)
    requires Accepted(v) && v.Obj?
    ensures Corresponds(Sort(Properties(v.members)), Canonicalize(v).entries)
    ensures forall i | 0 <= i < |Sort(Properties(v.members))| :: Sort(Properties(v.members))[i].value < v
  {
    var properties := Properties(v.members);
    SortCorresponds(properties, Entries(v));
    SortSorts(properties);
    var sorted := Sort(properties);
    forall i | 0 <= i < |sorted| ensures sorted[i].value < v {
      assert sorted[i] in multiset(sorted);
      assert sorted[i] in properties;
    }
  }

  /** Writing a value appends exactly its canonical text. */
  method WriteCanonical(writer: JsonWriter, v: Json)
    requires Accepted(v)
    modifies writer
    ensures writer.text == old(writer.text) + Separator(old(writer.pendingComma)) + CanonicalTextOf(writer.encode, v)
    ensures writer.pendingComma
    decreases v, 1
  {
    match v
    case Obj(members) =>
      WriteObject(writer, v);
    case Arr(items) =>
      WriteArray(writer, v);
    case Str(text) =>
      writer.WriteToken(Quote(writer.encode, text));
    case Num(raw) =>
      var number := NormalizeRaw(raw);
      writer.WriteToken(Key(number.value));
    case Bool(b) =>
      writer.WriteToken(if b then "true" else "false");
    case Null =>
      writer.WriteToken("null");
  }

  method WriteArray(writer: JsonWriter, v: Json)
    requires Accepted(v) && v.Arr?
    modifies writer
    ensures writer.text == old(writer.text) + Separator(old(writer.pendingComma)) + CanonicalTextOf(writer.encode, v)
    ensures writer.pendingComma
    decreases v, 0
  {
    var c := Canonicalize(v);
    writer.WriteStart("[");
    ghost var whole := writer.text + RenderItems(writer.encode, c, 0);
    var i := 0;
    while i < |v.items|
      invariant 0 <= i <= |v.items|
      invariant writer.pendingComma == (i > 0)
      invariant writer.text + RenderItems(writer.encode, c, i) == whole
    {
      ghost var before := writer.text;
      WriteCanonical(writer, v.items[i]);
      ItemAppends(writer.encode, c, i, before);
      i := i + 1;
    }
    assert writer.text + "" == whole;
    writer.WriteEnd("]");
    Enclose(old(writer.text) + Separator(old(writer.pendingComma)), "[", RenderItems(writer.encode, c, 0), "]");
  }

  method WriteObject(writer: JsonWriter, v: Json)
    requires Accepted(v) && v.Obj?
    modifies writer
    ensures writer.text == old(writer.text) + Separator(old(writer.pendingComma)) + CanonicalTextOf(writer.encode, v)
    ensures writer.pendingComma
    decreases v, 0
  {
    var c := Canonicalize(v);
    writer.WriteStart("{");
    ghost var whole := writer.text + RenderEntries(writer.encode, c, 0);
    var sorted := Sort(Properties(v.members));
    SortedProperties(v);
    var i := 0;
    while i < |sorted|
      invariant 0 <= i <= |sorted| == |c.entries|
      invariant writer.pendingComma == (i > 0)
      invariant writer.text + RenderEntries(writer.encode, c, i) == whole
    {
      ghost var before := writer.text;
      writer.WritePropertyName(sorted[i].name);
      WriteCanonical(writer, sorted[i].value);
      EntryAppends(writer.encode, c, i, before);
      i := i + 1;
    }
    assert writer.text + "" == whole;
    writer.WriteEnd("}");
    Enclose(old(writer.text) + Separator(old(writer.pendingComma)), "{", RenderEntries(writer.encode, c, 0), "}");
  }

  lemma Enclose(before: string, open: string, inner: string, close: string)
    ensures before + open + inner + close == before + (open + inner + close)
  {
  }

  lemma RegroupEntry(before: string, comma: string, name: string, value: string, rest: string)
    ensures before + (comma + (name + (":" + (value + rest)))) == before + comma + name + ":" + "" + value + rest
  {
  }

  lemma RegroupItem(before: string, comma: string, value: string, rest: string)
    ensures before + (comma + (value + rest)) == before + comma + value + rest
  {
  }

  lemma EntryAppends(encode: Encoder, c: Canon, i: nat, before: string)
    requires c.CObj? && i < |c.entries|
    ensures before + RenderEntries(encode, c, i)
      == before + Separator(i > 0) + Quote(encode, c.entries[i].name) + ":" + "" + Render(encode, c.entries[i].value)
         + RenderEntries(encode, c, i + 1)
  {
    var rest := RenderEntries(encode, c, i + 1);
    EntryUnfolds(encode, c, i, "");
    assert RenderEntries(encode, c, i) + "" == RenderEntries(encode, c, i) && rest + "" == rest;
    RegroupEntry(before, Comma(i), Quote(encode, c.entries[i].name), Render(encode, c.entries[i].value), rest);
  }

  lemma ItemAppends(encode: Encoder, c: Canon, i: nat, before: string)
    requires c.CArr? && i < |c.items|
    ensures before + RenderItems(encode, c, i)
      == before + Separator(i > 0) + Render(encode, c.items[i]) + RenderItems(encode, c, i + 1)
  {
    var rest := RenderItems(encode, c, i + 1);
    ItemUnfolds(encode, c, i, "");
    assert RenderItems(encode, c, i) + "" == RenderItems(encode, c, i) && rest + "" == rest;
    RegroupItem(before, Comma(i), Render(encode, c.items[i]), rest);
  }

  /** `CreateBinding`: the hash, whatever it is, of the canonical text. */
  method CreateBinding(encode: Encoder, hash: string -> string, projection: Json) returns (binding: string)
    requires Accepted(projection)
    ensures binding == hash(CanonicalTextOf(encode, projection))
  {
    var writer := new JsonWriter(encode);
    WriteCanonical(writer, projection);
    assert "" + "" + CanonicalTextOf(encode, projection) == CanonicalTextOf(encode, projection);
    binding := hash(writer.text);
  }

  // ---- projections ---------------------------------------------------------------------------

  predicate HasFields(context: Json, fields: seq<string>) {
    context.Obj? && forall i | 0 <= i < |fields| :: Has(context.members, fields[i])
  }

  /** The guard fields of a context, in the order the service declares them; nothing if one is missing. */
  function Project(context: Json, fields: seq<string>): Option<Json> {
    if !HasFields(context, fields) then None
    else Some(Obj(seq(|fields|, i requires 0 <= i < |fields| => Member(fields[i], Get(context.members, fields[i])))))
  }

  ghost predicate FieldsDistinct(fields: seq<string>) {
    forall i, j | 0 <= i < j < |fields| :: fields[i] != fields[j]
  }

  lemma ProjectionIsAccepted(context: Json, fields: seq<string>)
    requires Accepted(context) && HasFields(context, fields) && FieldsDistinct(fields)
    ensures Accepted(Project(context, fields).value)
  {
  }

  /** Two contexts agree on the guard when every guard field is semantically equal in both. */
  ghost predicate AgreeOn(left: Json, right: Json, fields: seq<string>)
    requires Accepted(left) && Accepted(right) && HasFields(left, fields) && HasFields(right, fields)
  {
    forall i | 0 <= i < |fields| ::
      SemanticallyEquals(Get(left.members, fields[i]), Get(right.members, fields[i]))
  }

  lemma ProjectionsAgree(left: Json, right: Json, fields: seq<string>)
    requires FieldsDistinct(fields)
    requires Accepted(left) && Accepted(right) && HasFields(left, fields) && HasFields(right, fields)
    requires Accepted(Project(left, fields).value) && Accepted(Project(right, fields).value)
    ensures SemanticallyEquals(Project(left, fields).value, Project(right, fields).value)
      <==> AgreeOn(left, right, fields)
  {
    var p, q := Project(left, fields).value, Project(right, fields).value;
    forall i | 0 <= i < |fields|
      ensures p.members[i] == Member(fields[i], Get(left.members, fields[i]))
      ensures Has(q.members, fields[i]) && Get(q.members, fields[i]) == Get(right.members, fields[i])
    {
      assert q.members[i] == Member(fields[i], Get(right.members, fields[i]));
      GetIs(q.members, i);
    }
  }

  /**
   Projections have the same canonical text exactly when the contexts agree on every guard field,
   which is exactly when the projections are semantically equal.
   */
  lemma ProjectionTextDecides(encode: Encoder, left: Json, right: Json, fields: seq<string>)
    requires Faithful(encode) && FieldsDistinct(fields)
    requires Accepted(left) && Accepted(right) && HasFields(left, fields) && HasFields(right, fields)
    ensures Accepted(Project(left, fields).value) && Accepted(Project(right, fields).value)
    ensures CanonicalTextOf(encode, Project(left, fields).value)
        == CanonicalTextOf(encode, Project(right, fields).value)
      <==> AgreeOn(left, right, fields)
    ensures SemanticallyEquals(Project(left, fields).value, Project(right, fields).value)
      <==> AgreeOn(left, right, fields)
  {
    ProjectionIsAccepted(left, fields);
    ProjectionIsAccepted(right, fields);
    TextDecidesEquality(encode, Project(left, fields).value, Project(right, fields).value);
    ProjectionsAgree(left, right, fields);
  }

  // ---- the format, on an example -------------------------------------------------------------

  function Plain(c: char): string { [c] }

  /** The members of a sample object, out of order. */
  function Sample(raw: NumberText): Json {
    Obj([Member("b", Arr([Null, Bool(true), Num(raw)])), Member("a", Str("x"))])
  }

  lemma SampleNumber(raw: string)
    requires raw == "-12.50e1"
    ensures IsLiteral(raw) && TryNormalize(raw) == Some(Number(true, "125", 0))
  {
    var l := Literal(true, "12", Some("50"), Some(Exponent('e', "1")));
    assert Text(l) == raw;
    SplitInverts(l);
    assert SignedValue("1") == 1 by {
      DigitsValueOne('1');
    }
    assert l.whole + FractionDigits(l) == "1250";
    assert TrimStart("1250") == "1250";
    assert "1250"[..3] == "125" && TrailingZeros("125") == 0;
    assert TrailingZeros("1250") == 1;
  }

  lemma SampleSorts(x: Canon, y: Canon)
    ensures Sort([Entry("b", x), Entry("a", y)]) == [Entry("a", y), Entry("b", x)]
  {
    var b, a := Entry("b", x), Entry("a", y);
    assert Utf16("b") == [98] && Utf16("a") == [97] by {
      assert "b"[1..] == "" && "a"[1..] == "";
    }
    assert !Less("b", "a");
    assert [b, a][1..] == [a] && [a][1..] == [];
    assert Sort([a]) == [a];
    assert Insert(b, [a]) == [a] + Insert(b, []);
  }

  lemma SampleIsAccepted(raw: NumberText)
    requires TryNormalize(raw).Some?
    ensures Accepted(Sample(raw)) && Accepted(Arr([Null, Bool(true), Num(raw)]))
  {
    var items := Arr([Null, Bool(true), Num(raw)]);
    assert Accepted(items);
    var v := Sample(raw);
    assert v.members[0].value == items && v.members[1].value == Str("x");
    assert NamesDistinct(v.members);
  }

  lemma SampleKey()
    ensures Key(Number(true, "125", 0)) == "-125e0"
  {
    assert NatText(0) == "0";
  }

  lemma SampleCanon(raw: NumberText)
    requires TryNormalize(raw) == Some(Number(true, "125", 0)) && Accepted(Sample(raw))
    ensures Canonicalize(Sample(raw)) == CObj([
      Entry("a", CStr("x")), Entry("b", CArr([CNull, CBool(true), CNum("-125e0")]))])
  {
    SampleKey();
    SampleIsAccepted(raw);
    var v := Sample(raw);
    var x := CArr([CNull, CBool(true), CNum("-125e0")]);
    assert Canonicalize(Num(raw)) == CNum("-125e0");
    assert Canonicalize(v.members[0].value) == x;
    assert Entries(v) == [Entry("b", x), Entry("a", CStr("x"))];
    SampleSorts(x, CStr("x"));
  }

  /** Members in order, numbers by their keys, no white space. */
  lemma SampleText(raw: NumberText)
    requires raw == "-12.50e1"
    ensures Accepted(Sample(raw))
    ensures CanonicalTextOf(Plain, Sample(raw)) == "{\"a\":\"x\",\"b\":[null,true,-125e0]}"
  {
    SampleNumber(raw);
    SampleIsAccepted(raw);
    SampleCanon(raw);
    var x := CArr([CNull, CBool(true), CNum("-125e0")]);
    SampleItems(x);
    SampleEntries(x, CStr("x"));
  }

  lemma SampleItems(x: Canon)
    requires x == CArr([CNull, CBool(true), CNum("-125e0")])
    ensures Render(Plain, x) == "[null,true,-125e0]"
  {
    assert RenderItems(Plain, x, 3) == "";
    assert RenderItems(Plain, x, 2) == ",-125e0";
    assert RenderItems(Plain, x, 1) == ",true,-125e0";
    assert RenderItems(Plain, x, 0) == "null,true,-125e0";
  }

  lemma SampleEntries(x: Canon, y: Canon)
    requires y == CStr("x") && Render(Plain, x) == "[null,true,-125e0]"
    ensures Render(Plain, CObj([Entry("a", y), Entry("b", x)])) == "{\"a\":\"x\",\"b\":[null,true,-125e0]}"
  {
    var c := CObj([Entry("a", y), Entry("b", x)]);
    PlainQuote('a');
    PlainQuote('b');
    PlainQuote('x');
    assert RenderEntries(Plain, c, 2) == "";
    var last := "," + "\"b\"" + ":" + Render(Plain, x) + "";
    assert RenderEntries(Plain, c, 1) == last;
    var all := "" + "\"a\"" + ":" + "\"x\"" + last;
    assert RenderEntries(Plain, c, 0) == all;
    SampleSpelling(last, all);
  }

  lemma SampleSpelling(last: string, all: string)
    requires last == "," + "\"b\"" + ":" + "[null,true,-125e0]" + "" && all == "" + "\"a\"" + ":" + "\"x\"" + last
    ensures "{" + all + "}" == "{\"a\":\"x\",\"b\":[null,true,-125e0]}"
  {
  }

  lemma PlainQuote(c: char)
    ensures Quote(Plain, [c]) == "\"" + [c] + "\""
  {
    assert [c][1..] == "";
    assert Escape(Plain, [c]) == [c];
  }
}
