/**
 * Java scalar behaviour the codec relies on: bytes, 32- and 64-bit integer
 * ranges with wrap-around, decimal text (Long.parseLong, Integer.parseInt,
 * printf's %d), String.getBytes (UTF-8), and String's UTF-16 view, which
 * drives String.hashCode and String.compareTo.
 */
module Primitives {
  import opened Wrappers

  type byte = b: int | 0 <= b < 256

  const TWO_32: int := 0x1_0000_0000
  const TWO_31: int := 0x8000_0000
  const TWO_63: int := 0x8000_0000_0000_0000

  predicate IsInt32(x: int) { -TWO_31 <= x < TWO_31 }
  predicate IsInt64(x: int) { -TWO_63 <= x < TWO_63 }

  /** Two's-complement wrap of an integer to a Java int. */
  function ToInt32(x: int): (r: int)
    ensures IsInt32(r)
    ensures IsInt32(x) ==> r == x
    ensures (r - x) % TWO_32 == 0
  {
    var u := x % TWO_32;
    if u >= TWO_31 then u - TWO_32 else u
  }

  /**
   * A Java float or double, carried as the decimal text it was parsed from.
   * The codec never computes with one; it only stores and compares them.
   */
  datatype Float32 = Float32(text: string)
  datatype Float64 = Float64(text: string)

  // ---------------------------------------------------------------------
  // Decimal text

  predicate IsDigit(c: char) { '0' <= c <= '9' }

  predicate AllDigits(s: string) { forall i | 0 <= i < |s| :: IsDigit(s[i]) }

  function DigitChar(d: int): char
    requires 0 <= d < 10
  {
    ('0' as int + d) as char
  }

  /** The value of a string of ASCII digits; None as soon as a character is not one. */
  function DigitsValue(s: string): Option<nat> {
    if |s| == 0 then Some(0)
    else
      var init :- DigitsValue(s[..|s| - 1]);
      var c := s[|s| - 1];
      if IsDigit(c) then Some(init * 10 + (c as int - '0' as int)) else None
  }

  /** The shortest decimal digits of a natural number. */
  function NaturalText(n: nat): (s: string)
    ensures |s| > 0 && AllDigits(s)
  {
    if n < 10 then [DigitChar(n)] else NaturalText(n / 10) + [DigitChar(n % 10)]
  }

  /** What printf's %d and Long.toString print. */
  function DecimalText(n: int): string {
    if n < 0 then "-" + NaturalText(-n) else NaturalText(n)
  }

  /**
   * Long.parseLong / Integer.parseInt: an optional sign, then at least one
   * ASCII digit, and a value inside [lo, hi]; anything else is refused.
   */
  function ParseDecimal(s: string, lo: int, hi: int): (r: Option<int>)
    ensures r.Some? ==> lo <= r.value <= hi
  {
    var signed := |s| > 0 && (s[0] == '-' || s[0] == '+');
    var body := if signed then s[1..] else s;
    if |body| == 0 then None
    else
      var magnitude: int :- DigitsValue(body);
      var v := if |s| > 0 && s[0] == '-' then -magnitude else magnitude;
      if lo <= v <= hi then Some(v) else None
  }

  lemma {:induction false} NaturalTextValue(n: nat)
    ensures DigitsValue(NaturalText(n)) == Some(n)
  {
    if n >= 10 {
      var s := NaturalText(n);
      assert s[..|s| - 1] == NaturalText(n / 10);
      NaturalTextValue(n / 10);
    }
  }

  /** Parsing what %d printed gives the number back. */
  lemma ParseDecimalText(n: int, lo: int, hi: int)
    requires lo <= n <= hi
    ensures ParseDecimal(DecimalText(n), lo, hi) == Some(n)
  {
    var m: nat := if n < 0 then -n else n;
    var t := NaturalText(m);
    NaturalTextValue(m);
    var s := DecimalText(n);
    if n < 0 {
      assert s == "-" + t;
      assert s[0] == '-' && s[1..] == t;
    } else {
      assert s == t;
      assert IsDigit(s[0]);
    }
  }

  // ---------------------------------------------------------------------
  // String.getBytes() under a UTF-8 default charset

  function Utf8Char(c: char): (r: seq<byte>)
    ensures 1 <= |r| <= 4
  {
    var v := c as int;
    if v < 0x80 then [v]
    else if v < 0x800 then [0xC0 + v / 0x40, 0x80 + v % 0x40]
    else if v < 0x10000 then [0xE0 + v / 0x1000, 0x80 + (v / 0x40) % 0x40, 0x80 + v % 0x40]
    else [0xF0 + v / 0x40000, 0x80 + (v / 0x1000) % 0x40, 0x80 + (v / 0x40) % 0x40, 0x80 + v % 0x40]
  }

  function Utf8(s: string): (r: seq<byte>)
    ensures |r| >= |s|
  {
    if |s| == 0 then [] else Utf8(s[..|s| - 1]) + Utf8Char(s[|s| - 1])
  }

  // ---------------------------------------------------------------------
  // The UTF-16 code units of a Java String

  predicate IsLowSurrogate(u: int) { 0xDC00 <= u < 0xE000 }

  function Utf16Char(c: char): (r: seq<int>)
    ensures |r| == 1 || |r| == 2
    ensures (|r| == 2) == IsLowSurrogate(r[|r| - 1])
  {
    var v := c as int;
    if v < 0x10000 then [v] else [0xD800 + (v - 0x10000) / 0x400, 0xDC00 + (v - 0x10000) % 0x400]
  }

  function Utf16(s: string): (r: seq<int>)
    ensures |s| > 0 ==> |r| > 0
  {
    if |s| == 0 then [] else Utf16(s[..|s| - 1]) + Utf16Char(s[|s| - 1])
  }

  lemma Utf16CharInjective(c: char, d: char)
    requires Utf16Char(c) == Utf16Char(d)
    ensures c == d
  {
    var v, w := c as int, d as int;
    if v >= 0x10000 {
      assert w >= 0x10000;
      assert (v - 0x10000) / 0x400 == (w - 0x10000) / 0x400;
      assert (v - 0x10000) % 0x400 == (w - 0x10000) % 0x400;
      assert v == w;
    }
  }

  lemma SameLengthSuffix(x1: seq<int>, e1: seq<int>, x2: seq<int>, e2: seq<int>)
    requires x1 + e1 == x2 + e2 && |e1| == |e2|
    ensures x1 == x2 && e1 == e2
  {
    assert x1 == (x1 + e1)[..|x1|];
    assert x2 == (x2 + e2)[..|x2|];
    assert e1 == (x1 + e1)[|x1|..];
    assert e2 == (x2 + e2)[|x2|..];
  }

  /** Distinct strings have distinct UTF-16 code units. */
  lemma {:induction false} Utf16Injective(a: string, b: string)
    requires Utf16(a) == Utf16(b)
    ensures a == b
  {
    if |a| > 0 && |b| > 0 {
      var ia, ib := a[..|a| - 1], b[..|b| - 1];
      var ea, eb := Utf16Char(a[|a| - 1]), Utf16Char(b[|b| - 1]);
      var u := Utf16(a);
      assert u == Utf16(ia) + ea;
      assert u == Utf16(ib) + eb;
      assert u[|u| - 1] == ea[|ea| - 1];
      assert u[|u| - 1] == eb[|eb| - 1];
      SameLengthSuffix(Utf16(ia), ea, Utf16(ib), eb);
      Utf16CharInjective(a[|a| - 1], b[|b| - 1]);
      Utf16Injective(ia, ib);
      assert a == ia + [a[|a| - 1]];
      assert b == ib + [b[|b| - 1]];
    }
  }

  // ---------------------------------------------------------------------
  // String.compareTo(a, b) <= 0: lexicographic order on UTF-16 code units

  predicate LexLessEq(a: seq<int>, b: seq<int>) {
    if |a| == 0 then true
    else if |b| == 0 then false
    else if a[0] != b[0] then a[0] < b[0]
    else LexLessEq(a[1..], b[1..])
  }

  predicate Precedes(a: string, b: string) { LexLessEq(Utf16(a), Utf16(b)) }

  lemma {:induction false} LexTotal(a: seq<int>, b: seq<int>)
    ensures LexLessEq(a, b) || LexLessEq(b, a)
  {
    if |a| > 0 && |b| > 0 && a[0] == b[0] {
      LexTotal(a[1..], b[1..]);
    }
  }

  lemma {:induction false} LexTransitive(a: seq<int>, b: seq<int>, c: seq<int>)
    requires LexLessEq(a, b) && LexLessEq(b, c)
    ensures LexLessEq(a, c)
  {
    if |a| > 0 && |b| > 0 && |c| > 0 && a[0] == b[0] == c[0] {
      LexTransitive(a[1..], b[1..], c[1..]);
    }
  }

  lemma {:induction false} LexAntisymmetric(a: seq<int>, b: seq<int>)
    requires LexLessEq(a, b) && LexLessEq(b, a)
    ensures a == b
  {
    if |a| > 0 && |b| > 0 {
      LexAntisymmetric(a[1..], b[1..]);
      assert a == [a[0]] + a[1..] && b == [b[0]] + b[1..];
    }
  }

  lemma PrecedesTotal(a: string, b: string)
    ensures Precedes(a, b) || Precedes(b, a)
  {
    LexTotal(Utf16(a), Utf16(b));
  }

  lemma PrecedesTransitive(a: string, b: string, c: string)
    requires Precedes(a, b) && Precedes(b, c)
    ensures Precedes(a, c)
  {
    LexTransitive(Utf16(a), Utf16(b), Utf16(c));
  }

  lemma PrecedesAntisymmetric(a: string, b: string)
    requires Precedes(a, b) && Precedes(b, a)
    ensures a == b
  {
    LexAntisymmetric(Utf16(a), Utf16(b));
    Utf16Injective(a, b);
  }
}
