/** `StringComparer.Ordinal`: strings compared by their UTF-16 code units, and sorting by it. */
module OrdinalOrder {
  /** The UTF-16 code units of one character. */
  function Units(c: char): seq<int> {
    var code := c as int;
    if code < 0x10000 then [code]
    else [0xD800 + (code - 0x10000) / 0x400, 0xDC00 + (code - 0x10000) % 0x400]
  }

  function Utf16(s: string): seq<int> {
    if s == "" then [] else Units(s[0]) + Utf16(s[1..])
  }

  predicate UnitsLess(a: seq<int>, b: seq<int>) {
    if b == [] then false
    else if a == [] then true
    else if a[0] != b[0] then a[0] < b[0]
    else UnitsLess(a[1..], b[1..])
  }

  predicate Less(a: string, b: string) { UnitsLess(Utf16(a), Utf16(b)) }

  /** Equal code units mean equal characters: a surrogate never stands for a character of its own. */
  lemma UnitsInjective(c: char, d: char, x: seq<int>, y: seq<int>)
    requires Units(c) + x == Units(d) + y
    ensures c == d && x == y
  {
    var a, b := Units(c) + x, Units(d) + y;
    assert a[0] == Units(c)[0] && b[0] == Units(d)[0];
    if |Units(c)| == 2 && |Units(d)| == 2 {
      assert a[1] == Units(c)[1] && b[1] == Units(d)[1];
      var m, n := c as int - 0x10000, d as int - 0x10000;
      assert m == (m / 0x400) * 0x400 + m % 0x400;
      assert n == (n / 0x400) * 0x400 + n % 0x400;
    }
    assert c == d;
    assert x == a[|Units(c)|..] && y == b[|Units(d)|..];
  }

  lemma {:induction false} Utf16Injective(s: string, t: string)
    requires Utf16(s) == Utf16(t)
    ensures s == t
    decreases |s|
  {
    if s != "" && t != "" {
      UnitsInjective(s[0], t[0], Utf16(s[1..]), Utf16(t[1..]));
      Utf16Injective(s[1..], t[1..]);
      assert s == [s[0]] + s[1..] && t == [t[0]] + t[1..];
    }
  }

  lemma {:induction false} UnitsTotal(a: seq<int>, b: seq<int>)
    ensures UnitsLess(a, b) || UnitsLess(b, a) || a == b
    ensures !(UnitsLess(a, b) && UnitsLess(b, a))
    ensures !UnitsLess(a, a)
    decreases |a|
  {
    if a != [] && b != [] {
      UnitsTotal(a[1..], b[1..]);
      assert a == [a[0]] + a[1..] && b == [b[0]] + b[1..];
    }
    if a != [] {
      UnitsTotal(a[1..], a[1..]);
    }
  }

  lemma {:induction false} UnitsTransitive(a: seq<int>, b: seq<int>, c: seq<int>)
    requires UnitsLess(a, b) && UnitsLess(b, c)
    ensures UnitsLess(a, c)
    decreases |a|
  {
    if a != [] && a[0] == b[0] == c[0] {
      UnitsTransitive(a[1..], b[1..], c[1..]);
    }
  }

  /** Ordinal comparison is a strict total order on strings. */
  lemma LessIsTotal(a: string, b: string, c: string)
    ensures Less(a, b) || Less(b, a) || a == b
    ensures !(Less(a, b) && Less(b, a))
    ensures !Less(a, a)
    ensures Less(a, b) && Less(b, c) ==> Less(a, c)
  {
    UnitsTotal(Utf16(a), Utf16(b));
    UnitsTotal(Utf16(a), Utf16(a));
    if Utf16(a) == Utf16(b) {
      Utf16Injective(a, b);
    }
    if Less(a, b) && Less(b, c) {
      UnitsTransitive(Utf16(a), Utf16(b), Utf16(c));
    }
  }

  /** What the units of a character are: itself, or a high and a low surrogate that spell its code. */
  lemma UnitsMean(c: char)
    ensures var code, u := c as int, Units(c);
      if code < 0x10000 then u == [code]
      else
        && |u| == 2 && 0xD800 <= u[0] < 0xDC00 <= u[1] < 0xE000
        && code == 0x10000 + (u[0] - 0xD800) * 0x400 + (u[1] - 0xDC00)
  {
    var m := c as int - 0x10000;
    assert m == (m / 0x400) * 0x400 + m % 0x400;
  }

  /** The first place at which two unit sequences differ. */
  ghost predicate DifferAt(a: seq<int>, b: seq<int>, k: nat) {
    && k <= |a| && k <= |b| && a[..k] == b[..k]
    && (k == |a| < |b| || (k < |a| && k < |b| && a[k] < b[k]))
  }

  /** A string comes first if it is a proper beginning of the other, or has the smaller unit where they first differ. */
  lemma LessMeans(a: string, b: string) returns (k: nat)
    ensures Less(a, b) ==> DifferAt(Utf16(a), Utf16(b), k)
    ensures forall j: nat | DifferAt(Utf16(a), Utf16(b), j) :: Less(a, b)
  {
    k := 0;
    if Less(a, b) {
      k := LessDiffers(Utf16(a), Utf16(b));
    }
    forall j: nat | DifferAt(Utf16(a), Utf16(b), j) ensures Less(a, b) {
      DifferingIsLess(Utf16(a), Utf16(b), j);
    }
  }

  lemma {:induction false} LessDiffers(a: seq<int>, b: seq<int>) returns (k: nat)
    requires UnitsLess(a, b)
    ensures DifferAt(a, b, k)
    decreases |a|
  {
    if a == [] || a[0] != b[0] {
      k := 0;
    } else {
      k := LessDiffers(a[1..], b[1..]);
      assert a == [a[0]] + a[1..] && b == [b[0]] + b[1..];
      k := k + 1;
      assert a[..k] == [a[0]] + a[1..][..k - 1] && b[..k] == [b[0]] + b[1..][..k - 1];
    }
  }

  lemma {:induction false} DifferingIsLess(a: seq<int>, b: seq<int>, k: nat)
    requires DifferAt(a, b, k)
    ensures UnitsLess(a, b)
    decreases k
  {
    if k > 0 {
      assert a[0] == a[..k][0] == b[..k][0] == b[0];
      assert a[1..][..k - 1] == a[..k][1..] && b[1..][..k - 1] == b[..k][1..];
      DifferingIsLess(a[1..], b[1..], k - 1);
    }
  }

  // ---- sorting by name -----------------------------------------------------------------------

  datatype Entry<T> = Entry(name: string, value: T)

  ghost predicate Sorted<T>(entries: seq<Entry<T>>) {
    forall i, j | 0 <= i < j < |entries| :: Less(entries[i].name, entries[j].name)
  }

  ghost predicate Distinct<T>(entries: seq<Entry<T>>) {
    forall i, j | 0 <= i < j < |entries| :: entries[i].name != entries[j].name
  }

  function Insert<T>(e: Entry<T>, entries: seq<Entry<T>>): seq<Entry<T>> {
    if entries == [] || Less(e.name, entries[0].name) then [e] + entries
    else [entries[0]] + Insert(e, entries[1..])
  }

  /** `OrderBy` by name. */
  function Sort<T>(entries: seq<Entry<T>>): seq<Entry<T>> {
    if entries == [] then [] else Insert(entries[0], Sort(entries[1..]))
  }

  lemma {:induction false} InsertKeeps<T>(e: Entry<T>, entries: seq<Entry<T>>)
    ensures multiset(Insert(e, entries)) == multiset(entries) + multiset{e}
    decreases |entries|
  {
    if entries != [] && !Less(e.name, entries[0].name) {
      InsertKeeps(e, entries[1..]);
      assert entries == [entries[0]] + entries[1..];
    }
  }

  lemma {:induction false} InsertSorts<T>(e: Entry<T>, entries: seq<Entry<T>>)
    requires Sorted(entries) && forall i | 0 <= i < |entries| :: entries[i].name != e.name
    ensures Sorted(Insert(e, entries))
    decreases |entries|
  {
    if entries != [] {
      LessIsTotal(e.name, entries[0].name, e.name);
      if Less(e.name, entries[0].name) {
        forall i | 0 <= i < |entries| ensures Less(e.name, entries[i].name) {
          LessIsTotal(e.name, entries[0].name, entries[i].name);
        }
      } else {
        var rest := entries[1..];
        InsertSorts(e, rest);
        InsertKeeps(e, rest);
        var inserted := Insert(e, rest);
        forall i | 0 <= i < |inserted| ensures Less(entries[0].name, inserted[i].name) {
          assert inserted[i] in multiset(inserted);
        }
      }
    }
  }

  lemma {:induction false} SortPermutes<T>(entries: seq<Entry<T>>)
    ensures multiset(Sort(entries)) == multiset(entries)
    decreases |entries|
  {
    if entries != [] {
      var rest := entries[1..];
      SortPermutes(rest);
      InsertKeeps(entries[0], Sort(rest));
      assert entries == [entries[0]] + rest;
    }
  }

  /** Sorting permutes, and distinct names come out strictly ordered. */
  lemma {:induction false} SortSorts<T>(entries: seq<Entry<T>>)
    ensures multiset(Sort(entries)) == multiset(entries)
    ensures Distinct(entries) ==> Sorted(Sort(entries))
    decreases |entries|
  {
    SortPermutes(entries);
    if entries != [] && Distinct(entries) {
      var first, rest := entries[0], entries[1..];
      SortSorts(rest);
      SortedIsNew(first, rest);
      InsertSorts(first, Sort(rest));
    }
  }

  /** A name that no entry has is not that of a sorted entry either. */
  lemma SortedIsNew<T>(e: Entry<T>, entries: seq<Entry<T>>)
    requires forall i | 0 <= i < |entries| :: entries[i].name != e.name
    ensures forall i | 0 <= i < |Sort(entries)| :: Sort(entries)[i].name != e.name
  {
    SortPermutes(entries);
    forall i | 0 <= i < |Sort(entries)| ensures Sort(entries)[i].name != e.name {
      assert Sort(entries)[i] in multiset(Sort(entries));
      assert Sort(entries)[i] in entries;
    }
  }

  /** Strictly ordered sequences with the same elements are equal. */
  lemma {:induction false} SortedIsUnique<T>(a: seq<Entry<T>>, b: seq<Entry<T>>)
    requires Sorted(a) && Sorted(b)
    requires forall e :: e in a <==> e in b
    ensures a == b
    decreases |a|
  {
    assert b != [] ==> b[0] in b;
    if a != [] {
      assert a[0] in a;
      var k :| 0 <= k < |b| && b[k] == a[0];
      assert b[0] in b;
      var j :| 0 <= j < |a| && a[j] == b[0];
      LessIsTotal(a[0].name, b[0].name, a[0].name);
      assert a[0] == b[0];
      TailsAgree(a, b);
      SortedIsUnique(a[1..], b[1..]);
      assert a == [a[0]] + a[1..] && b == [b[0]] + b[1..];
    }
  }

  lemma TailsAgree<T>(a: seq<Entry<T>>, b: seq<Entry<T>>)
    requires Sorted(a) && Sorted(b) && a != [] && b != [] && a[0] == b[0]
    requires forall e :: e in a <==> e in b
    ensures forall e :: e in a[1..] <==> e in b[1..]
  {
    LessIsTotal(a[0].name, a[0].name, a[0].name);
    forall e ensures e in a[1..] <==> e in b[1..] {
      if e in a[1..] { assert e in a && e != a[0]; }
      if e in b[1..] { assert e in b && e != b[0]; }
    }
  }
}
