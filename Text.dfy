/**
 * The JavaScript string and object-key behaviour the report code relies on:
 * `String.prototype.split(',')`, `trim()`, integer-to-string conversion, the
 * default `Array.prototype.sort()` order and the order in which
 * `Object.entries` / `Object.keys` list the own keys of a plain object.
 */
module Text {
  import opened Seqs

  /** ECMAScript WhiteSpace and LineTerminator code points, the ones `trim()` strips. */
  predicate IsJsWhitespace(c: char) {
    c in {' ', '\t', '\n', '\r', '\U{B}', '\U{C}', '\U{A0}', '\U{1680}',
          '\U{2000}', '\U{2001}', '\U{2002}', '\U{2003}', '\U{2004}', '\U{2005}',
          '\U{2006}', '\U{2007}', '\U{2008}', '\U{2009}', '\U{200A}',
          '\U{2028}', '\U{2029}', '\U{202F}', '\U{205F}', '\U{3000}', '\U{FEFF}'}
  }

  /** `s.trim()` is the empty string. */
  predicate IsBlank(s: string) {
    forall i :: 0 <= i < |s| ==> IsJsWhitespace(s[i])
  }

  /** `s.split(sep)` for a one-character separator. */
  function Split(s: string, sep: char): (r: seq<string>)
    ensures |r| >= 1
    ensures forall k :: 0 <= k < |r| ==> sep !in r[k]
    decreases |s|
  {
    if s == [] then [""]
    else if s[0] == sep then [""] + Split(s[1..], sep)
    else
      var rest := Split(s[1..], sep);
      [[s[0]] + rest[0]] + rest[1..]
  }

  /** `fields.join(sep)`. */
  function Join(fields: seq<string>, sep: char): string
    requires |fields| >= 1
  {
    if |fields| == 1 then fields[0] else fields[0] + [sep] + Join(fields[1..], sep)
  }

  /** Splitting loses nothing: joining the fields back gives the line. */
  lemma {:induction false} SplitJoin(s: string, sep: char)
    ensures Join(Split(s, sep), sep) == s
    decreases |s|
  {
    if s == [] {
    } else if s[0] == sep {
      SplitJoin(s[1..], sep);
      assert s == [sep] + s[1..];
    } else {
      SplitJoin(s[1..], sep);
      var rest := Split(s[1..], sep);
      assert s == [s[0]] + s[1..];
      if |rest| == 1 {
      } else {
        assert rest == [rest[0]] + rest[1..];
        assert Join(rest, sep) == rest[0] + [sep] + Join(rest[1..], sep);
      }
    }
  }

  /** Splitting a field that holds no separator, followed by any text `t`, extends `t`'s first field. */
  lemma {:induction false} SplitPrefix(a: string, t: string, sep: char)
    requires sep !in a
    ensures var st := Split(t, sep); Split(a + t, sep) == [a + st[0]] + st[1..]
    decreases |a|
  {
    if a == [] {
      var st := Split(t, sep);
      assert a + t == t && a + st[0] == st[0];
      assert st == [st[0]] + st[1..];
    } else {
      var st := Split(t, sep);
      SplitPrefix(a[1..], t, sep);
      var rest := Split(a[1..] + t, sep);
      assert rest[0] == a[1..] + st[0] && rest[1..] == st[1..];
      assert a + t != [] && (a + t)[0] == a[0] && a[0] != sep;
      assert (a + t)[1..] == a[1..] + t;
      assert Split(a + t, sep) == [[a[0]] + rest[0]] + rest[1..];
      assert [a[0]] + (a[1..] + st[0]) == a + st[0];
    }
  }

  /** Joining fields free of the separator and splitting the result gives the fields back. */
  lemma {:induction false} JoinSplit(fields: seq<string>, sep: char)
    requires |fields| >= 1
    requires forall k :: 0 <= k < |fields| ==> sep !in fields[k]
    ensures Split(Join(fields, sep), sep) == fields
  {
    if |fields| == 1 {
      SplitPrefix(fields[0], [], sep);
      assert fields[0] + [] == fields[0];
    } else {
      JoinSplit(fields[1..], sep);
      var t := [sep] + Join(fields[1..], sep);
      assert Split(t, sep) == [""] + Split(Join(fields[1..], sep), sep);
      SplitPrefix(fields[0], t, sep);
      assert fields[0] + [sep] + Join(fields[1..], sep) == fields[0] + t;
      assert fields[0] + "" == fields[0];
      assert fields == [fields[0]] + fields[1..];
    }
  }

  /** A string without the separator splits into itself alone. */
  lemma {:induction false} SplitWithoutSeparator(s: string, sep: char)
    requires sep !in s
    ensures Split(s, sep) == [s]
    decreases |s|
  {
    if s != [] {
      SplitWithoutSeparator(s[1..], sep);
      assert s == [s[0]] + s[1..];
    }
  }

  predicate EndsWith(s: string, suffix: string) {
    |suffix| <= |s| && s[|s| - |suffix|..] == suffix
  }

  // ----- integers as decimal strings -----

  predicate IsDigit(c: char) { '0' <= c <= '9' }

  function DigitChar(d: nat): (c: char)
    requires d < 10
    ensures IsDigit(c) && (c as int) - ('0' as int) == d
  {
    ['0', '1', '2', '3', '4', '5', '6', '7', '8', '9'][d]
  }

  function DigitValue(c: char): nat
    requires IsDigit(c)
  {
    (c as int) - ('0' as int)
  }

  /** The value of a string of decimal digits. */
  function DecimalValue(s: string): nat
    requires forall i :: 0 <= i < |s| ==> IsDigit(s[i])
  {
    if s == [] then 0
    else DecimalValue(s[..|s| - 1]) * 10 + DigitValue(s[|s| - 1])
  }

  /** The shortest decimal spelling of `n`, as JavaScript's `String(n)` writes it. */
  function NatToDecimal(n: nat): (s: string)
    ensures |s| >= 1 && forall i :: 0 <= i < |s| ==> IsDigit(s[i])
    ensures s[0] == '0' ==> n == 0
  {
    if n < 10 then [DigitChar(n)] else NatToDecimal(n / 10) + [DigitChar(n % 10)]
  }

  /** `String(n)` for an integer `n`. */
  function IntToDecimal(n: int): string {
    if n < 0 then "-" + NatToDecimal(-n) else NatToDecimal(n)
  }

  /** The integer a `String(n)`-shaped string denotes. */
  function IntValue(s: string): int
    requires |s| >= 1
    requires s[0] == '-' ==> forall i :: 1 <= i < |s| ==> IsDigit(s[i])
    requires s[0] != '-' ==> forall i :: 0 <= i < |s| ==> IsDigit(s[i])
  {
    if s[0] == '-' then -(DecimalValue(s[1..]) as int) else DecimalValue(s)
  }

  lemma {:induction false} NatToDecimalValue(n: nat)
    ensures DecimalValue(NatToDecimal(n)) == n
  {
    var s := NatToDecimal(n);
    if n >= 10 {
      NatToDecimalValue(n / 10);
      assert s[..|s| - 1] == NatToDecimal(n / 10);
    }
  }

  /** Decimal spelling round-trips, so distinct integers give distinct strings. */
  lemma IntToDecimalRoundTrip(n: int)
    ensures IntValue(IntToDecimal(n)) == n
  {
    if n < 0 {
      NatToDecimalValue(-n);
      assert IntToDecimal(n)[1..] == NatToDecimal(-n);
    } else {
      NatToDecimalValue(n);
    }
  }

  lemma IntToDecimalInjective(a: int, b: int)
    requires IntToDecimal(a) == IntToDecimal(b)
    ensures a == b
  {
    IntToDecimalRoundTrip(a);
    IntToDecimalRoundTrip(b);
  }

  // ----- the order of Array.prototype.sort() on strings -----

  /**
   * `a <= b` in the default sort order: character by character, a prefix first.
   * A Dafny `char` is a Unicode code point, so this compares code points where
   * JavaScript compares UTF-16 code units; the two agree on strings without
   * characters outside the Basic Multilingual Plane, such as the year keys.
   */
  predicate CodePointLe(a: string, b: string) {
    if a == [] then true
    else if b == [] then false
    else if a[0] != b[0] then a[0] < b[0]
    else CodePointLe(a[1..], b[1..])
  }

  lemma {:induction false} CodePointLeTotal(a: string, b: string)
    ensures CodePointLe(a, b) || CodePointLe(b, a)
  {
    if a != [] && b != [] && a[0] == b[0] {
      CodePointLeTotal(a[1..], b[1..]);
    }
  }

  lemma {:induction false} CodePointLeTransitive(a: string, b: string, c: string)
    requires CodePointLe(a, b) && CodePointLe(b, c)
    ensures CodePointLe(a, c)
  {
    if a != [] && b != [] && c != [] && a[0] == b[0] && b[0] == c[0] {
      CodePointLeTransitive(a[1..], b[1..], c[1..]);
    }
  }

  lemma {:induction false} CodePointLeAntisymmetric(a: string, b: string)
    requires CodePointLe(a, b) && CodePointLe(b, a)
    ensures a == b
  {
    if a != [] && b != [] {
      CodePointLeAntisymmetric(a[1..], b[1..]);
      assert a == [a[0]] + a[1..] && b == [b[0]] + b[1..];
    }
  }

  lemma CodePointOrderIsTotal()
    ensures TotalPreorder(CodePointLe)
  {
    forall a, b ensures CodePointLe(a, b) || CodePointLe(b, a) {
      CodePointLeTotal(a, b);
    }
    forall a, b, c | CodePointLe(a, b) && CodePointLe(b, c) ensures CodePointLe(a, c) {
      CodePointLeTransitive(a, b, c);
    }
  }

  // ----- own-key order of a plain JavaScript object -----

  /**
   * An array index: the canonical decimal spelling of an integer in
   * [0, 2^32 - 2]. Plain objects list such keys before all others.
   */
  predicate IsArrayIndex(k: string) {
    && |k| >= 1
    && (forall i :: 0 <= i < |k| ==> IsDigit(k[i]))
    && (k[0] != '0' || |k| == 1)
    && DecimalValue(k) < 0xFFFF_FFFF
  }

  predicate IsNamedKey(k: string) { !IsArrayIndex(k) }

  /** The numeric value of an array-index key (0 for any other key). */
  function IndexValue(k: string): nat {
    if IsArrayIndex(k) then DecimalValue(k) else 0
  }

  predicate IndexLe(a: string, b: string) {
    IndexValue(a) <= IndexValue(b)
  }

  /**
   * The order `Object.entries` / `Object.keys` list the keys of a plain object
   * whose keys were created in the order `created`: array indices ascending, then
   * every other key in creation order.
   */
  function JsOwnKeyOrder(created: seq<string>): seq<string> {
    InsertionSort(Filter(created, IsArrayIndex), IndexLe) + Filter(created, IsNamedKey)
  }

  lemma IndexOrderIsTotal()
    ensures TotalPreorder(IndexLe)
  {
  }

  /** The listing is a permutation of the keys. */
  lemma JsOwnKeyOrderPermutation(created: seq<string>)
    ensures multiset(JsOwnKeyOrder(created)) == multiset(created)
  {
    var idx := Filter(created, IsArrayIndex);
    FilterPartition(created, IsArrayIndex, IsNamedKey);
    assert multiset(InsertionSort(idx, IndexLe) + Filter(created, IsNamedKey))
      == multiset(InsertionSort(idx, IndexLe)) + multiset(Filter(created, IsNamedKey));
  }

  /** Array-index keys come first, in ascending numeric order, then the other keys in creation order. */
  lemma JsOwnKeyOrderShape(created: seq<string>)
    ensures var r, n := JsOwnKeyOrder(created), |Filter(created, IsArrayIndex)|;
      && n <= |r|
      && (forall i :: 0 <= i < n ==> IsArrayIndex(r[i]))
      && (forall i :: n <= i < |r| ==> !IsArrayIndex(r[i]))
      && (forall i, j :: 0 <= i < j < n ==> IndexValue(r[i]) <= IndexValue(r[j]))
      && r[n..] == Filter(created, IsNamedKey)
  {
    var idx := Filter(created, IsArrayIndex);
    var named := Filter(created, IsNamedKey);
    IndexOrderIsTotal();
    SortIsSorted(idx, IndexLe);
    var sorted := InsertionSort(idx, IndexLe);
    var r := sorted + named;
    FilterMembers(created, IsArrayIndex);
    FilterMembers(created, IsNamedKey);
    assert |sorted| == |idx| by {
      assert |multiset(sorted)| == |multiset(idx)|;
    }
    forall i | 0 <= i < |sorted| ensures IsArrayIndex(r[i]) {
      assert r[i] == sorted[i];
      assert sorted[i] in multiset(idx);
    }
    forall i | |sorted| <= i < |r| ensures !IsArrayIndex(r[i]) {
      assert r[i] == named[i - |sorted|];
      assert named[i - |sorted|] in named;
    }
    forall i, j | 0 <= i < j < |sorted| ensures IndexValue(r[i]) <= IndexValue(r[j]) {
      assert IndexLe(sorted[i], sorted[j]);
    }
    assert r[|sorted|..] == named;
  }

  /** When no key looks like an array index, the listing is creation order. */
  lemma NamedKeysKeepCreationOrder(created: seq<string>)
    requires forall i :: 0 <= i < |created| ==> !IsArrayIndex(created[i])
    ensures JsOwnKeyOrder(created) == created
  {
    FilterNone(created, IsArrayIndex);
    FilterAll(created, IsNamedKey);
  }

  /** An array-index key created later is still listed first. */
  lemma IndexKeyListedFirst()
    ensures JsOwnKeyOrder(["Cash", "1000"]) == ["1000", "Cash"]
  {
    assert IsArrayIndex("1000") by {
      assert DecimalValue("1000") == 1000 by {
        assert "1000"[..3] == "100" && "100"[..2] == "10" && "10"[..1] == "1";
      }
    }
    assert !IsArrayIndex("Cash") by { assert !IsDigit('C'); }
  }
}
