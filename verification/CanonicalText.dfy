/**
 From canonical trees to the text that is hashed, and to bindings of whole contexts. The way the
 library escapes a character is a parameter: any escaping that can be told apart from the left
 and never emits a bare quote.
 */
module CanonicalText {
  import opened Decimal
  import opened CanonicalJson

  type Encoder = char -> string

  /** No code is empty or contains a quote, and no code is the beginning of another. */
  ghost predicate Faithful(encode: Encoder) {
    && (forall c :: encode(c) != "" && '\"' !in encode(c))
    && (forall c, d :: encode(c) <= encode(d) ==> c == d)
  }

  /** One such escaping: a quote and a backslash are preceded by a backslash. */
  function Backslashed(c: char): string {
    if c == '\"' then "\\q" else if c == '\\' then "\\\\" else [c]
  }

  lemma BackslashedIsFaithful()
    ensures Faithful(Backslashed)
  {
    forall c, d | Backslashed(c) <= Backslashed(d) ensures c == d {
      var p, q := Backslashed(c), Backslashed(d);
      assert p == q[..|p|];
      assert p[0] == q[0] && (|p| == 2 ==> p[1] == q[1]);
    }
  }

  function Escape(encode: Encoder, s: string): string {
    if s == "" then "" else encode(s[0]) + Escape(encode, s[1..])
  }

  function Quote(encode: Encoder, s: string): string { "\"" + Escape(encode, s) + "\"" }

  function Render(encode: Encoder, c: Canon): string
    decreases c
  {
    match c
    case CNull => "null"
    case CBool(b) => if b then "true" else "false"
    case CNum(key) => key
    case CStr(text) => Quote(encode, text)
    case CArr(items) => "[" + RenderItems(encode, c, 0) + "]"
    case CObj(entries) => "{" + RenderEntries(encode, c, 0) + "}"
  }

  /** The items from index `i` on, each but the first of all preceded by a comma. */
  function RenderItems(encode: Encoder, c: Canon, i: nat): string
    requires c.CArr? && i <= |c.items|
    decreases c, 0, |c.items| - i
  {
    if i == |c.items| then ""
    else Comma(i) + Render(encode, c.items[i]) + RenderItems(encode, c, i + 1)
  }

  function RenderEntries(encode: Encoder, c: Canon, i: nat): string
    requires c.CObj? && i <= |c.entries|
    decreases c, 0, |c.entries| - i
  {
    if i == |c.entries| then ""
    else
      Comma(i) + Quote(encode, c.entries[i].name) + ":" + Render(encode, c.entries[i].value)
      + RenderEntries(encode, c, i + 1)
  }

  function Comma(i: nat): string { if i == 0 then "" else "," }

  // ---- the text determines the tree ----------------------------------------------------------

  predicate KeyChar(c: char) { IsDigit(c) || c == '-' || c == 'e' }

  predicate KeyShaped(key: string) {
    && key != "" && key[0] != 'e'
    && forall i | 0 <= i < |key| :: KeyChar(key[i])
  }

  ghost predicate Keyed(c: Canon) {
    match c
    case CNum(key) => KeyShaped(key)
    case CArr(items) => forall i | 0 <= i < |items| :: Keyed(items[i])
    case CObj(entries) => forall i | 0 <= i < |entries| :: Keyed(entries[i].value)
    case _ => true
  }

  /** What can follow a value: nothing, a comma, or a closing bracket. */
  predicate Delimited(x: string) { x == "" || x[0] == ',' || x[0] == ']' || x[0] == '}' }

  lemma EscapeOpens(encode: Encoder, s: string, x: string)
    requires Faithful(encode)
    ensures var a := Escape(encode, s) + ("\"" + x);
      a != "" && (a[0] == '\"' <==> s == "")
  {
    if s != "" {
      assert encode(s[0])[0] in encode(s[0]);
    }
  }

  lemma {:induction false} EscapeEnds(encode: Encoder, s: string, t: string, x: string, y: string)
    requires Faithful(encode)
    requires Escape(encode, s) + ("\"" + x) == Escape(encode, t) + ("\"" + y)
    ensures s == t && x == y
    decreases |s| + |t|
  {
    EscapeOpens(encode, s, x);
    EscapeOpens(encode, t, y);
    if s == "" {
      assert Escape(encode, s) + ("\"" + x) == "\"" + x && Escape(encode, t) + ("\"" + y) == "\"" + y;
      assert x == ("\"" + x)[1..] && y == ("\"" + y)[1..];
    } else {
      var u, v := Escape(encode, s[1..]) + ("\"" + x), Escape(encode, t[1..]) + ("\"" + y);
      assert encode(s[0]) + u == Escape(encode, s) + ("\"" + x);
      assert encode(t[0]) + v == Escape(encode, t) + ("\"" + y);
      SameCode(encode, s[0], t[0], u, v);
      EscapeEnds(encode, s[1..], t[1..], x, y);
      assert s == [s[0]] + s[1..] && t == [t[0]] + t[1..];
    }
  }

  lemma SameCode(encode: Encoder, c: char, d: char, u: string, v: string)
    requires Faithful(encode) && encode(c) + u == encode(d) + v
    ensures c == d && u == v
  {
    var p, q, all := encode(c), encode(d), encode(c) + u;
    assert p == all[..|p|] && q == all[..|q|];
    assert if |p| <= |q| then p <= q else q <= p;
    assert u == all[|p|..] && v == (q + v)[|q|..];
  }

  lemma QuoteEnds(encode: Encoder, s: string, t: string, x: string, y: string)
    requires Faithful(encode) && Quote(encode, s) + x == Quote(encode, t) + y
    ensures s == t && x == y
  {
    assert (Quote(encode, s) + x)[1..] == Escape(encode, s) + ("\"" + x);
    assert (Quote(encode, t) + y)[1..] == Escape(encode, t) + ("\"" + y);
    EscapeEnds(encode, s, t, x, y);
  }

  /** How far a text runs in characters of a number key. */
  function KeySpan(s: string): nat {
    if s != "" && KeyChar(s[0]) then 1 + KeySpan(s[1..]) else 0
  }

  lemma {:induction false} KeySpanIs(k: string, x: string)
    requires (forall i | 0 <= i < |k| :: KeyChar(k[i])) && Delimited(x)
    ensures KeySpan(k + x) == |k|
    decreases |k|
  {
    if k == "" {
      assert k + x == x;
    } else {
      KeySpanIs(k[1..], x);
      assert (k + x)[1..] == k[1..] + x;
    }
  }

  lemma SamePrefix(p: string, q: string, x: string, y: string)
    requires p + x == q + y && |p| == |q|
    ensures p == q && x == y
  {
    assert p == (p + x)[..|p|] && q == (q + y)[..|q|];
    assert x == (p + x)[|p|..] && y == (q + y)[|q|..];
  }

  lemma KeyEnds(k: string, l: string, x: string, y: string)
    requires KeyShaped(k) && KeyShaped(l) && Delimited(x) && Delimited(y) && k + x == l + y
    ensures k == l && x == y
  {
    KeySpanIs(k, x);
    KeySpanIs(l, y);
    SamePrefix(k, l, x, y);
  }

  /** The first character of a value tells what kind it is, and is never a delimiter. */
  predicate Opens(c: Canon, first: char) {
    match c
    case CNull => first == 'n'
    case CBool(b) => first == if b then 't' else 'f'
    case CNum(_) => IsDigit(first) || first == '-'
    case CStr(_) => first == '\"'
    case CArr(_) => first == '['
    case CObj(_) => first == '{'
  }

  lemma RenderOpens(encode: Encoder, c: Canon)
    requires Keyed(c)
    ensures Render(encode, c) != "" && Opens(c, Render(encode, c)[0])
  {
  }

  /** Values of one text are of one kind. */
  lemma SameKind(encode: Encoder, c: Canon, d: Canon, x: string, y: string)
    requires Keyed(c) && Keyed(d) && Render(encode, c) + x == Render(encode, d) + y
    ensures (c.CNull? && d.CNull?) || (c.CBool? && d.CBool? && c == d) || (c.CNum? && d.CNum?)
         || (c.CStr? && d.CStr?) || (c.CArr? && d.CArr?) || (c.CObj? && d.CObj?)
  {
    RenderOpens(encode, c);
    RenderOpens(encode, d);
    var first := Render(encode, c)[0];
    assert first == (Render(encode, c) + x)[0] == (Render(encode, d) + y)[0] == Render(encode, d)[0];
  }

  /** Two renderings, each followed by a delimiter, are the same text only for the same tree. */
  lemma {:induction false} RenderEnds(encode: Encoder, c: Canon, d: Canon, x: string, y: string)
    requires Faithful(encode) && Keyed(c) && Keyed(d) && Delimited(x) && Delimited(y)
    requires Render(encode, c) + x == Render(encode, d) + y
    ensures c == d && x == y
    decreases c, 1
  {
    SameKind(encode, c, d, x, y);
    match c
    case CNum(key) =>
      KeyEnds(key, d.key, x, y);
    case CStr(text) =>
      QuoteEnds(encode, text, d.text, x, y);
    case CArr(items) =>
      BracketDrops("[", RenderItems(encode, c, 0), "]", x);
      BracketDrops("[", RenderItems(encode, d, 0), "]", y);
      ItemsEnd(encode, c, d, 0, "]" + x, "]" + y);
      SamePrefix("]", "]", x, y);
    case CObj(entries) =>
      BracketDrops("{", RenderEntries(encode, c, 0), "}", x);
      BracketDrops("{", RenderEntries(encode, d, 0), "}", y);
      EntriesEnd(encode, c, d, 0, "}" + x, "}" + y);
      SamePrefix("}", "}", x, y);
    case _ =>
      SamePrefix(Render(encode, c), Render(encode, d), x, y);
  }

  lemma BracketDrops(open: string, inner: string, close: string, x: string)
    requires |open| == 1
    ensures (open + inner + close + x)[1..] == inner + (close + x)
  {
  }

  lemma ItemUnfolds(encode: Encoder, c: Canon, i: nat, x: string)
    requires c.CArr? && i < |c.items|
    ensures RenderItems(encode, c, i) + x
      == Comma(i) + (Render(encode, c.items[i]) + (RenderItems(encode, c, i + 1) + x))
  {
  }

  /** The list goes on exactly when the next character is not its closing bracket. */
  lemma ItemsOpen(encode: Encoder, c: Canon, i: nat, x: string)
    requires c.CArr? && Keyed(c) && i <= |c.items| && x != "" && x[0] == ']'
    ensures var a := RenderItems(encode, c, i) + x;
      a != "" && (a[0] == ']' <==> i == |c.items|) && (i > 0 ==> Delimited(a))
  {
    if i < |c.items| {
      ItemUnfolds(encode, c, i, x);
      RenderOpens(encode, c.items[i]);
    }
  }

  lemma {:induction false} ItemsEnd(encode: Encoder, c: Canon, d: Canon, i: nat, x: string, y: string)
    requires Faithful(encode) && c.CArr? && d.CArr? && Keyed(c) && Keyed(d)
    requires i <= |c.items| && i <= |d.items| && c.items[..i] == d.items[..i]
    requires x != "" && x[0] == ']' && y != "" && y[0] == ']'
    requires RenderItems(encode, c, i) + x == RenderItems(encode, d, i) + y
    ensures c == d && x == y
    decreases c, 0, |c.items| - i
  {
    ItemsOpen(encode, c, i, x);
    ItemsOpen(encode, d, i, y);
    if i == |c.items| {
      assert c.items == c.items[..i] && d.items == d.items[..i];
      assert RenderItems(encode, c, i) + x == x && RenderItems(encode, d, i) + y == y;
    } else {
      var u, v := RenderItems(encode, c, i + 1) + x, RenderItems(encode, d, i + 1) + y;
      ItemUnfolds(encode, c, i, x);
      ItemUnfolds(encode, d, i, y);
      SamePrefix(Comma(i), Comma(i), Render(encode, c.items[i]) + u, Render(encode, d.items[i]) + v);
      ItemsOpen(encode, c, i + 1, x);
      ItemsOpen(encode, d, i + 1, y);
      RenderEnds(encode, c.items[i], d.items[i], u, v);
      assert c.items[..i + 1] == c.items[..i] + [c.items[i]];
      assert d.items[..i + 1] == d.items[..i] + [d.items[i]];
      ItemsEnd(encode, c, d, i + 1, x, y);
    }
  }

  lemma RegroupFive(a: string, b: string, c: string, d: string, e: string, x: string)
    ensures a + b + c + d + e + x == a + (b + (c + (d + (e + x))))
  {
  }

  lemma EntryUnfolds(encode: Encoder, c: Canon, i: nat, x: string)
    requires c.CObj? && i < |c.entries|
    ensures RenderEntries(encode, c, i) + x
      == Comma(i) + (Quote(encode, c.entries[i].name)
                     + (":" + (Render(encode, c.entries[i].value) + (RenderEntries(encode, c, i + 1) + x))))
  {
    RegroupFive(Comma(i), Quote(encode, c.entries[i].name), ":", Render(encode, c.entries[i].value),
                RenderEntries(encode, c, i + 1), x);
  }

  lemma EntriesOpen(encode: Encoder, c: Canon, i: nat, x: string)
    requires c.CObj? && i <= |c.entries| && x != "" && x[0] == '}'
    ensures var a := RenderEntries(encode, c, i) + x;
      a != "" && (a[0] == '}' <==> i == |c.entries|) && (i > 0 ==> Delimited(a))
  {
    if i < |c.entries| {
      EntryUnfolds(encode, c, i, x);
    }
  }

  /** Equal lists of entries go on with equal names, and then with equal text. */
  lemma EntryNames(encode: Encoder, c: Canon, d: Canon, i: nat, x: string, y: string)
    requires Faithful(encode) && c.CObj? && d.CObj? && i < |c.entries| && i < |d.entries|
    requires RenderEntries(encode, c, i) + x == RenderEntries(encode, d, i) + y
    ensures c.entries[i].name == d.entries[i].name
    ensures Render(encode, c.entries[i].value) + (RenderEntries(encode, c, i + 1) + x)
      == Render(encode, d.entries[i].value) + (RenderEntries(encode, d, i + 1) + y)
  {
    var p, q := c.entries[i], d.entries[i];
    var u, v := RenderEntries(encode, c, i + 1) + x, RenderEntries(encode, d, i + 1) + y;
    var s, t := Render(encode, p.value) + u, Render(encode, q.value) + v;
    EntryUnfolds(encode, c, i, x);
    EntryUnfolds(encode, d, i, y);
    SamePrefix(Comma(i), Comma(i), Quote(encode, p.name) + (":" + s), Quote(encode, q.name) + (":" + t));
    QuoteEnds(encode, p.name, q.name, ":" + s, ":" + t);
    SamePrefix(":", ":", s, t);
  }

  lemma {:induction false} EntriesEnd(encode: Encoder, c: Canon, d: Canon, i: nat, x: string, y: string)
    requires Faithful(encode) && c.CObj? && d.CObj? && Keyed(c) && Keyed(d)
    requires i <= |c.entries| && i <= |d.entries| && c.entries[..i] == d.entries[..i]
    requires x != "" && x[0] == '}' && y != "" && y[0] == '}'
    requires RenderEntries(encode, c, i) + x == RenderEntries(encode, d, i) + y
    ensures c == d && x == y
    decreases c, 0, |c.entries| - i
  {
    EntriesOpen(encode, c, i, x);
    EntriesOpen(encode, d, i, y);
    if i == |c.entries| {
      assert c.entries == c.entries[..i] && d.entries == d.entries[..i];
      assert RenderEntries(encode, c, i) + x == x && RenderEntries(encode, d, i) + y == y;
    } else {
      var p, q := c.entries[i], d.entries[i];
      var u, v := RenderEntries(encode, c, i + 1) + x, RenderEntries(encode, d, i + 1) + y;
      EntryNames(encode, c, d, i, x, y);
      EntriesOpen(encode, c, i + 1, x);
      EntriesOpen(encode, d, i + 1, y);
      RenderEnds(encode, p.value, q.value, u, v);
      assert c.entries[..i + 1] == c.entries[..i] + [p];
      assert d.entries[..i + 1] == d.entries[..i] + [q];
      EntriesEnd(encode, c, d, i + 1, x, y);
    }
  }
}
