/** String operations of the JavaScript runtime that the dashboard relies on:
    `startsWith` / `endsWith`, the relational `<` on strings, `Array.prototype.sort`
    with a string key, `String.prototype.trim` and `parseFloat`. Each is
    defined here once and proved to have the property the scripts rely on. */
module Strings {
  import opened Common

  predicate StartsWith(s: string, prefix: string)
  {
    |prefix| <= |s| && s[..|prefix|] == prefix
  }

  predicate EndsWith(s: string, suffix: string)
  {
    |suffix| <= |s| && s[|s| - |suffix|..] == suffix
  }

  // ---------------------------------------------------------------------------
  // JavaScript's `a < b` on strings: lexicographic, character by character.

  predicate Less(a: string, b: string)
  {
    if b == [] then false
    else if a == [] then true
    else if a[0] != b[0] then a[0] < b[0]
    else Less(a[1..], b[1..])
  }

  lemma {:induction false} LessIrreflexive(a: string)
    ensures !Less(a, a)
  {
    if a != [] {
      LessIrreflexive(a[1..]);
    }
  }

  lemma {:induction false} LessTransitive(a: string, b: string, c: string)
    requires Less(a, b) && Less(b, c)
    ensures Less(a, c)
  {
    if a != [] && a[0] == b[0] && b[0] == c[0] {
      LessTransitive(a[1..], b[1..], c[1..]);
    }
  }

  /** Two different strings are always ordered one way or the other. */
  lemma {:induction false} LessTotal(a: string, b: string)
    ensures a == b || Less(a, b) || Less(b, a)
  {
    if a != [] && b != [] && a[0] == b[0] {
      LessTotal(a[1..], b[1..]);
      if a[1..] == b[1..] {
        assert a == [a[0]] + a[1..] && b == [b[0]] + b[1..];
      }
    }
  }

  lemma {:induction false} LessAsymmetric(a: string, b: string)
    requires Less(a, b)
    ensures !Less(b, a)
  {
    if a != [] && a[0] == b[0] {
      LessAsymmetric(a[1..], b[1..]);
    }
  }

  // ---------------------------------------------------------------------------
  // `Array.prototype.sort` with a comparator on a string key. Ascending order
  // is the default `sort()`; descending order is the comparator
  // `(a, b) => a < b ? 1 : (b < a ? -1 : 0)`.

  /** May an element with key `a` stand before one with key `b`? */
  predicate Precedes(a: string, b: string, descending: bool)
  {
    if descending then !Less(a, b) else !Less(b, a)
  }

  lemma PrecedesTotal(a: string, b: string, descending: bool)
    ensures Precedes(a, b, descending) || Precedes(b, a, descending)
  {
    LessTotal(a, b);
    if a == b {
      LessIrreflexive(a);
    } else if Less(a, b) {
      LessAsymmetric(a, b);
    } else {
      LessAsymmetric(b, a);
    }
  }

  lemma PrecedesTransitive(a: string, b: string, c: string, descending: bool)
    requires Precedes(a, b, descending) && Precedes(b, c, descending)
    ensures Precedes(a, c, descending)
  {
    LessTotal(a, b);
    LessTotal(b, c);
    if descending {
      if Less(a, c) {
        if a != b && b != c {
          LessTransitive(c, b, a);
          LessAsymmetric(c, a);
        }
      }
    } else {
      if Less(c, a) {
        if a != b && b != c {
          LessTransitive(a, b, c);
          LessAsymmetric(a, c);
        }
      }
    }
  }

  ghost predicate SortedBy<T>(s: seq<T>, key: T -> string, descending: bool)
  {
    forall i, j :: 0 <= i < j < |s| ==> Precedes(key(s[i]), key(s[j]), descending)
  }

  function Insert<T>(x: T, s: seq<T>, key: T -> string, descending: bool): (r: seq<T>)
    ensures multiset(r) == multiset(s) + multiset{x}
  {
    if s == [] || Precedes(key(x), key(s[0]), descending) then [x] + s
    else
      assert s == [s[0]] + s[1..];
      [s[0]] + Insert(x, s[1..], key, descending)
  }

  function SortBy<T>(s: seq<T>, key: T -> string, descending: bool): (r: seq<T>)
    ensures multiset(r) == multiset(s)
  {
    if s == [] then []
    else
      assert s == [s[0]] + s[1..];
      Insert(s[0], SortBy(s[1..], key, descending), key, descending)
  }

  /** A sorted list stays sorted with an element in front that precedes all of it. */
  lemma ConsSorted<T>(h: T, t: seq<T>, key: T -> string, descending: bool)
    requires SortedBy(t, key, descending)
    requires forall k :: 0 <= k < |t| ==> Precedes(key(h), key(t[k]), descending)
    ensures SortedBy([h] + t, key, descending)
  {
    var r := [h] + t;
    forall i, j | 0 <= i < j < |r|
      ensures Precedes(key(r[i]), key(r[j]), descending)
    {
      if i > 0 {
        assert r[i] == t[i - 1] && r[j] == t[j - 1];
      } else {
        assert r[j] == t[j - 1];
      }
    }
  }

  /** Every element of a list with an element inserted is that element or an
      element of the list. */
  lemma InsertElements<T>(x: T, s: seq<T>, key: T -> string, descending: bool, k: nat)
    requires k < |Insert(x, s, key, descending)|
    ensures Insert(x, s, key, descending)[k] == x || Insert(x, s, key, descending)[k] in s
  {
    var r := Insert(x, s, key, descending);
    assert r[k] in multiset(r);
  }

  lemma {:induction false} InsertSorted<T>(x: T, s: seq<T>, key: T -> string, descending: bool)
    requires SortedBy(s, key, descending)
    ensures SortedBy(Insert(x, s, key, descending), key, descending)
  {
    if s == [] || Precedes(key(x), key(s[0]), descending) {
      forall k | 0 <= k < |s|
        ensures Precedes(key(x), key(s[k]), descending)
      {
        if k > 0 {
          PrecedesTransitive(key(x), key(s[0]), key(s[k]), descending);
        }
      }
      ConsSorted(x, s, key, descending);
    } else {
      PrecedesTotal(key(x), key(s[0]), descending);
      var tail := s[1..];
      assert SortedBy(tail, key, descending) by {
        forall i, j | 0 <= i < j < |tail|
          ensures Precedes(key(tail[i]), key(tail[j]), descending)
        {
          assert tail[i] == s[i + 1] && tail[j] == s[j + 1];
        }
      }
      InsertSorted(x, tail, key, descending);
      var t := Insert(x, tail, key, descending);
      forall k | 0 <= k < |t|
        ensures Precedes(key(s[0]), key(t[k]), descending)
      {
        InsertElements(x, tail, key, descending, k);
        if t[k] != x {
          var m :| 0 <= m < |tail| && tail[m] == t[k];
          assert s[m + 1] == t[k];
        }
      }
      ConsSorted(s[0], t, key, descending);
    }
  }

  /** The sort yields a permutation of its input in the requested order. */
  lemma {:induction false} SortBySorted<T>(s: seq<T>, key: T -> string, descending: bool)
    ensures SortedBy(SortBy(s, key, descending), key, descending)
    ensures multiset(SortBy(s, key, descending)) == multiset(s)
  {
    if s != [] {
      SortBySorted(s[1..], key, descending);
      InsertSorted(s[0], SortBy(s[1..], key, descending), key, descending);
    }
  }

  // ---------------------------------------------------------------------------
  // White space as ECMAScript defines it (WhiteSpace and LineTerminator),
  // used by `trim` and by `parseFloat`.

  predicate IsJsWhitespace(c: char)
  {
    || c == '\t' || c == '\n' || c == '\U{B}' || c == '\U{C}' || c == '\r' || c == ' '
    || c == '\U{A0}' || c == '\U{1680}' || ('\U{2000}' <= c <= '\U{200A}')
    || c == '\U{2028}' || c == '\U{2029}' || c == '\U{202F}' || c == '\U{205F}'
    || c == '\U{3000}' || c == '\U{FEFF}'
  }

  ghost predicate AllWhitespace(s: string)
  {
    forall i :: 0 <= i < |s| ==> IsJsWhitespace(s[i])
  }

  function LeadingWhitespace(s: string): (n: nat)
    ensures n <= |s| && AllWhitespace(s[..n])
    ensures n < |s| ==> !IsJsWhitespace(s[n])
  {
    if s != [] && IsJsWhitespace(s[0]) then 1 + LeadingWhitespace(s[1..]) else 0
  }

  function TrailingWhitespace(s: string): (n: nat)
    ensures n <= |s| && AllWhitespace(s[|s| - n..])
    ensures n < |s| ==> !IsJsWhitespace(s[|s| - 1 - n])
  {
    if s != [] && IsJsWhitespace(s[|s| - 1]) then 1 + TrailingWhitespace(s[..|s| - 1]) else 0
  }

  /** `String.prototype.trim`: the string without white space at either end. */
  function Trim(s: string): (t: string)
    ensures t == [] || (!IsJsWhitespace(t[0]) && !IsJsWhitespace(t[|t| - 1]))
    ensures exists i, j :: 0 <= i <= j <= |s| && t == s[i..j] && AllWhitespace(s[..i]) && AllWhitespace(s[j..])
  {
    var a := LeadingWhitespace(s);
    var rest := s[a..];
    var b := TrailingWhitespace(rest);
    var t := rest[..|rest| - b];
    assert t == s[a..|s| - b];
    assert s[|s| - b..] == rest[|rest| - b..];
    assert t != [] ==> t[0] == s[a] && t[|t| - 1] == rest[|rest| - 1 - b];
    t
  }

  /** A string with no white space at either end is its own trim. */
  lemma TrimUnchanged(t: string)
    requires t == [] || (!IsJsWhitespace(t[0]) && !IsJsWhitespace(t[|t| - 1]))
    ensures Trim(t) == t
  {
    assert LeadingWhitespace(t) == 0;
    assert t[0..] == t;
    assert TrailingWhitespace(t) == 0;
    assert t[..|t|] == t;
  }

  lemma TrimIdempotent(s: string)
    ensures Trim(Trim(s)) == Trim(s)
  {
    TrimUnchanged(Trim(s));
  }

  // ---------------------------------------------------------------------------
  // `parseFloat`: the longest prefix, after leading white space, that reads as
  // a decimal literal (sign, digits, optional fraction, optional exponent).

  predicate IsDigit(c: char)
  {
    '0' <= c <= '9'
  }

  function DigitRun(s: string): (n: nat)
    ensures n <= |s|
    ensures forall i :: 0 <= i < n ==> IsDigit(s[i])
    ensures n < |s| ==> !IsDigit(s[n])
  {
    if s != [] && IsDigit(s[0]) then 1 + DigitRun(s[1..]) else 0
  }

  function DigitsValue(ds: string): nat
    requires forall i :: 0 <= i < |ds| ==> IsDigit(ds[i])
  {
    if ds == [] then 0
    else
      assert IsDigit(ds[|ds| - 1]);
      10 * DigitsValue(ds[..|ds| - 1]) + (ds[|ds| - 1] as int - '0' as int)
  }

  function Pow10(e: int): (p: real)
    ensures p > 0.0
    decreases if e < 0 then -e else e
  {
    if e == 0 then 1.0 else if e > 0 then 10.0 * Pow10(e - 1) else Pow10(e + 1) / 10.0
  }

  /** The value of an exponent part `e[+-]digits` at the start of `v`, or 0
      when there is none (an `e` without digits is not part of the number). */
  function ExponentPart(v: string): int
  {
    if |v| >= 1 && (v[0] == 'e' || v[0] == 'E') then
      var w := v[1..];
      var negative := |w| >= 1 && w[0] == '-';
      var digits := if |w| >= 1 && (w[0] == '-' || w[0] == '+') then w[1..] else w;
      var n := DigitRun(digits);
      if n == 0 then 0 else if negative then -(DigitsValue(digits[..n]) as int) else DigitsValue(digits[..n])
    else 0
  }

  /** `parseFloat(s)` when it is a finite number, `None` when it is NaN.
      (`Infinity` is not finite and is reported as `None` as well.) */
  function ParseFloat(s: string): Option<real>
  {
    var t := s[LeadingWhitespace(s)..];
    var negative := |t| >= 1 && t[0] == '-';
    var u := if |t| >= 1 && (t[0] == '-' || t[0] == '+') then t[1..] else t;
    match ParseMagnitude(u)
    case None => None
    case Some(magnitude) => Some(if negative then -magnitude else magnitude)
  }

  /** The unsigned decimal literal at the start of `u`. */
  function ParseMagnitude(u: string): Option<real>
  {
    var intLen := DigitRun(u);
    var hasDot := intLen < |u| && u[intLen] == '.';
    var fracLen := if hasDot then DigitRun(u[intLen + 1..]) else 0;
    if intLen == 0 && fracLen == 0 then None
    else
      var mantissaEnd := if hasDot then intLen + 1 + fracLen else intLen;
      var digits := u[..intLen] + (if hasDot then u[intLen + 1..mantissaEnd] else []);
      Some(DigitsValue(digits) as real * Pow10(ExponentPart(u[mantissaEnd..]) - fracLen))
  }

  /** The decimal numeral of a natural number, as `String(n)` writes it. */
  function Decimal(n: nat): (s: string)
    ensures |s| >= 1 && forall i :: 0 <= i < |s| ==> IsDigit(s[i])
  {
    var d := ('0' as int + n % 10) as char;
    if n < 10 then [d] else Decimal(n / 10) + [d]
  }

  lemma {:induction false} DecimalValue(n: nat)
    ensures DigitsValue(Decimal(n)) == n
  {
    var s := Decimal(n);
    assert s[..|s| - 1] == if n < 10 then [] else Decimal(n / 10);
    if n >= 10 {
      DecimalValue(n / 10);
    }
  }

  /** Reading a numeral back with `parseFloat` gives the number it was written from. */
  lemma ParseFloatDecimal(n: nat)
    ensures ParseFloat(Decimal(n)) == Some(n as real)
  {
    var s := Decimal(n);
    assert ParseMagnitude(s) == Some(n as real) by {
      DigitRunAll(s);
      assert s[..|s|] + [] == s;
      assert s[|s|..] == [];
      DecimalValue(n);
    }
    assert LeadingWhitespace(s) == 0;
    assert s[0..] == s;
  }

  lemma {:induction false} DigitRunAll(s: string)
    requires forall i :: 0 <= i < |s| ==> IsDigit(s[i])
    ensures DigitRun(s) == |s|
  {
    if s != [] {
      DigitRunAll(s[1..]);
    }
  }
}
