/**
 * The small part of JavaScript's string and number semantics that the
 * client and server code relies on: parseInt with radix 10, NaN-aware
 * comparisons, number-to-string conversion, `replace(/\D/g, "")`,
 * `toLowerCase`, `trim`, `includes` and the lexicographic `<` on strings.
 */
module Js {

  /** A JavaScript number restricted to the integers plus NaN. */
  datatype Number = Num(n: int) | NaN

  predicate IsDigit(c: char) { '0' <= c <= '9' }

  predicate AllDigits(s: string) { forall i :: 0 <= i < |s| ==> IsDigit(s[i]) }

  function DigitValue(c: char): (d: nat)
    requires IsDigit(c)
    ensures d < 10
  {
    c as int - '0' as int
  }

  function DigitChar(d: nat): (c: char)
    requires d < 10
    ensures IsDigit(c) && DigitValue(c) == d
  {
    (d + '0' as int) as char
  }

  /** JavaScript white space and line terminators (the ASCII and Latin-1 ones). */
  predicate IsSpace(c: char) {
    c == ' ' || c == '\t' || c == '\n' || c == '\r' || c == '\U{0B}' || c == '\U{0C}' || c == '\U{A0}' || c == '\U{FEFF}'
  }

  // ---------------------------------------------------------------------
  // Number <-> string

  /** The value of a string of decimal digits. */
  function DigitsValue(ds: string): nat
    requires AllDigits(ds)
  {
    if ds == [] then 0 else 10 * DigitsValue(ds[..|ds| - 1]) + DigitValue(ds[|ds| - 1])
  }

  /** The longest prefix of `s` made of decimal digits. */
  function DigitPrefix(s: string): (p: string)
    ensures p <= s && AllDigits(p)
    ensures |p| < |s| ==> !IsDigit(s[|p|])
  {
    if s != [] && IsDigit(s[0]) then [s[0]] + DigitPrefix(s[1..]) else []
  }

  function SkipSpaces(s: string): (r: string)
    ensures |r| <= |s| && r == s[|s| - |r|..]
    ensures r != [] ==> !IsSpace(r[0])
  {
    if s != [] && IsSpace(s[0]) then SkipSpaces(s[1..]) else s
  }

  /**
   * `parseInt(s, 10)`: leading white space is skipped, an optional sign is
   * read, then the longest run of digits; no digit at all gives NaN. So
   * the empty string, and one that starts with anything but white space, a
   * sign or a digit, give NaN, and only a minus sign gives a negative value.
   */
  function ParseInt(s: string): (r: Number)
    ensures s == [] ==> r == NaN
    ensures s != [] && !IsSpace(s[0]) && !IsDigit(s[0]) && s[0] != '-' && s[0] != '+' ==> r == NaN
    ensures r.Num? && r.n < 0 ==> SkipSpaces(s) != [] && SkipSpaces(s)[0] == '-'
  {
    var t := SkipSpaces(s);
    var negative := t != [] && t[0] == '-';
    var body := if t != [] && (t[0] == '-' || t[0] == '+') then t[1..] else t;
    var ds := DigitPrefix(body);
    var v: int := if ds == [] then 0 else DigitsValue(ds);
    if ds == [] then NaN else Num(if negative then -v else v)
  }

  /** The decimal representation of a natural number, as `String(n)` gives it. */
  function NatToString(n: nat): (s: string)
    ensures |s| >= 1 && AllDigits(s)
    ensures DigitsValue(s) == n
    ensures (s[0] == '0') == (n == 0)
  {
    if n < 10 then [DigitChar(n)]
    else
      var s := NatToString(n / 10) + [DigitChar(n % 10)];
      assert s[..|s| - 1] == NatToString(n / 10);
      s
  }

  function IntToString(i: int): (s: string)
    ensures |s| >= 1
  {
    if i < 0 then "-" + NatToString(-i) else NatToString(i)
  }

  lemma DigitPrefixOfDigits(s: string)
    requires AllDigits(s)
    ensures DigitPrefix(s) == s
  {
    if s != [] { DigitPrefixOfDigits(s[1..]); }
  }

  /** `parseInt(String(i), 10) == i`: the two conversions are inverse. */
  lemma {:induction false} ParseIntOfIntToString(i: int)
    ensures ParseInt(IntToString(i)) == Num(i)
  {
    var n: nat := if i < 0 then -i else i;
    var digits := NatToString(n);
    DigitPrefixOfDigits(digits);
    var s := IntToString(i);
    assert !IsSpace(s[0]);
    assert SkipSpaces(s) == s;
    if i < 0 {
      assert s == "-" + digits;
      assert s[1..] == digits;
    } else {
      assert s == digits;
      assert s[0] != '-' && s[0] != '+';
    }
  }

  // ---------------------------------------------------------------------
  // NaN-aware arithmetic and comparisons

  /** `a * b`; NaN propagates. */
  function Times(a: Number, b: Number): (r: Number)
    ensures r.Num? <==> a.Num? && b.Num?
    ensures r.Num? ==> r.n == a.n * b.n
  {
    if a.Num? && b.Num? then Num(a.n * b.n) else NaN
  }

  /** `a + b` on numbers; NaN propagates. */
  function Plus(a: Number, b: Number): (r: Number)
    ensures r.Num? <==> a.Num? && b.Num?
    ensures r.Num? ==> r.n == a.n + b.n
  {
    if a.Num? && b.Num? then Num(a.n + b.n) else NaN
  }

  /** `a < b`; false as soon as either side is NaN. */
  predicate Lt(a: Number, b: Number) { a.Num? && b.Num? && a.n < b.n }

  /** `a <= b`; false as soon as either side is NaN. */
  predicate Le(a: Number, b: Number) { a.Num? && b.Num? && a.n <= b.n }

  /** `a === b` on numbers; NaN is equal to nothing. */
  predicate NumEq(a: Number, b: Number) { a.Num? && b.Num? && a.n == b.n }

  // ---------------------------------------------------------------------
  // String helpers

  /** `s.replace(/\D/g, "")`: the digits of `s`, in order. */
  function StripNonDigits(s: string): (r: string)
    ensures AllDigits(r) && |r| <= |s|
    ensures AllDigits(s) ==> r == s
  {
    if s == [] then []
    else (if IsDigit(s[0]) then [s[0]] else []) + StripNonDigits(s[1..])
  }

  lemma {:induction false} StripNonDigitsIdempotent(s: string)
    ensures StripNonDigits(StripNonDigits(s)) == StripNonDigits(s)
  {
    var r := StripNonDigits(s);
    assert AllDigits(r);
  }

  /** ASCII case folding, the part of `toLowerCase` the model keeps. */
  function LowerChar(c: char): (d: char)
    ensures !('A' <= d <= 'Z')
  {
    if 'A' <= c <= 'Z' then (c as int + 32) as char else c
  }

  function ToLower(s: string): (r: string)
    ensures |r| == |s|
    ensures forall i :: 0 <= i < |s| ==> r[i] == LowerChar(s[i])
  {
    if s == [] then [] else [LowerChar(s[0])] + ToLower(s[1..])
  }

  lemma ToLowerIdempotent(s: string)
    ensures ToLower(ToLower(s)) == ToLower(s)
  {
    assert forall i :: 0 <= i < |s| ==> LowerChar(LowerChar(s[i])) == LowerChar(s[i]);
  }

  function TrimStart(s: string): (r: string)
    ensures |r| <= |s|
    ensures r != [] ==> !IsSpace(r[0])
  {
    SkipSpaces(s)
  }

  function TrimEnd(s: string): (r: string)
    ensures r <= s
    ensures r != [] ==> !IsSpace(r[|r| - 1])
  {
    if s != [] && IsSpace(s[|s| - 1]) then TrimEnd(s[..|s| - 1]) else s
  }

  /** `s.trim()`. */
  function Trim(s: string): (r: string)
    ensures |r| <= |s|
    ensures r != [] ==> !IsSpace(r[0]) && !IsSpace(r[|r| - 1])
    ensures r == [] <==> forall i :: 0 <= i < |s| ==> IsSpace(s[i])
  {
    TrimAllSpace(s);
    TrimEnd(TrimStart(s))
  }

  lemma {:induction false} TrimAllSpace(s: string)
    ensures TrimEnd(TrimStart(s)) == [] <==> forall i :: 0 <= i < |s| ==> IsSpace(s[i])
  {
    SkipSpacesAll(s);
    TrimEndEmpty(SkipSpaces(s));
  }

  lemma {:induction false} SkipSpacesAll(s: string)
    ensures SkipSpaces(s) == [] <==> forall i :: 0 <= i < |s| ==> IsSpace(s[i])
  {
    if s != [] && IsSpace(s[0]) {
      SkipSpacesAll(s[1..]);
      assert forall i :: 1 <= i < |s| ==> s[i] == s[1..][i - 1];
    }
  }

  lemma {:induction false} TrimEndEmpty(s: string)
    ensures TrimEnd(s) == [] <==> forall i :: 0 <= i < |s| ==> IsSpace(s[i])
  {
    if s != [] && IsSpace(s[|s| - 1]) {
      TrimEndEmpty(s[..|s| - 1]);
      assert forall i :: 0 <= i < |s| - 1 ==> s[i] == s[..|s| - 1][i];
    } else if s != [] {
      assert !IsSpace(s[|s| - 1]);
    }
  }

  /** `haystack.includes(needle)`: whether `needle` occurs at position `k` or later. */
  predicate IncludesFrom(haystack: string, needle: string, k: nat)
    decreases |haystack| - k
  {
    k + |needle| <= |haystack| &&
    (haystack[k..k + |needle|] == needle || IncludesFrom(haystack, needle, k + 1))
  }

  /** `haystack.includes(needle)`: `needle` occurs somewhere in `haystack`. */
  predicate Includes(haystack: string, needle: string)
    ensures Includes(haystack, needle) <==> exists j: nat :: OccursAt(haystack, needle, j)
  {
    IncludesFromMeans(haystack, needle, 0);
    IncludesFrom(haystack, needle, 0)
  }

  /** `needle` occurs in `haystack` starting at position `j`. */
  predicate OccursAt(haystack: string, needle: string, j: nat)
  {
    j + |needle| <= |haystack| && haystack[j..j + |needle|] == needle
  }

  lemma {:induction false} IncludesFromMeans(haystack: string, needle: string, k: nat)
    ensures IncludesFrom(haystack, needle, k) <==> exists j: nat :: k <= j && OccursAt(haystack, needle, j)
    decreases |haystack| - k
  {
    if k + |needle| <= |haystack| {
      IncludesFromMeans(haystack, needle, k + 1);
      if OccursAt(haystack, needle, k) {
        assert IncludesFrom(haystack, needle, k);
      }
      if exists j: nat :: k <= j && OccursAt(haystack, needle, j) {
        var j: nat :| k <= j && OccursAt(haystack, needle, j);
        if j != k { assert k + 1 <= j; }
      }
    } else {
      assert forall j: nat :: k <= j ==> !OccursAt(haystack, needle, j);
    }
  }

  /** The empty string occurs in every string. */
  lemma IncludesEmpty(haystack: string)
    ensures Includes(haystack, "")
  {
    assert haystack[0..0] == "";
  }

  /**
   * JavaScript's `a < b` on strings: lexicographic comparison of code units,
   * a proper prefix being smaller.
   */
  predicate StringLess(a: string, b: string)
  {
    if a == [] then b != []
    else if b == [] then false
    else if a[0] != b[0] then a[0] < b[0]
    else StringLess(a[1..], b[1..])
  }

  /** `<` on strings is a strict order: never both ways, and transitive. */
  lemma {:induction false} StringLessAsymmetric(a: string, b: string)
    ensures StringLess(a, b) ==> !StringLess(b, a)
  {
    if a != [] && b != [] && a[0] == b[0] {
      StringLessAsymmetric(a[1..], b[1..]);
    }
  }

  lemma {:induction false} StringLessTransitive(a: string, b: string, c: string)
    requires StringLess(a, b) && StringLess(b, c)
    ensures StringLess(a, c)
  {
    if a != [] && a[0] == b[0] && b[0] == c[0] {
      StringLessTransitive(a[1..], b[1..], c[1..]);
    }
  }
}
