/**
 * The pieces of the Java library the game's value classes lean on:
 * 32-bit `int` arithmetic, String.hashCode, Objects.hash and the decimal
 * text of an `int` that string concatenation produces.
 */
module JavaLang {

  const TWO_32: int := 0x1_0000_0000
  const TWO_31: int := 0x8000_0000

  predicate IsInt32(x: int) {
    -TWO_31 <= x < TWO_31
  }

  /** The Java `int` a mathematical integer wraps around to: the one congruent to it modulo 2^32. */
  function Wrap(x: int): (r: int)
    ensures IsInt32(r) && (r - x) % TWO_32 == 0
  {
    var m := x % TWO_32;
    if m < TWO_31 then m else m - TWO_32
  }

  /** The int32 congruent to a given integer is unique. */
  lemma WrapUnique(x: int, r: int)
    requires IsInt32(r) && (r - x) % TWO_32 == 0
    ensures Wrap(x) == r
  {
    var w := Wrap(x);
    assert (w - r) % TWO_32 == 0 by {
      CongruentDifference(w, x, r);
    }
  }

  /** Two integers congruent to a third modulo 2^32 are congruent to each other. */
  lemma CongruentDifference(a: int, x: int, b: int)
    requires (a - x) % TWO_32 == 0 && (b - x) % TWO_32 == 0
    ensures (a - b) % TWO_32 == 0
  {
    var i := (a - x) / TWO_32;
    var j := (b - x) / TWO_32;
    assert a - b == (i - j) * TWO_32;
  }

  /**
   * String.hashCode as the library computes it: h starts at 0 and each
   * character in turn makes h = 31 * h + c, in int arithmetic.
   */
  function StringHash(s: string): (h: int)
    ensures IsInt32(h)
  {
    if s == [] then 0 else Wrap(31 * StringHash(s[..|s| - 1]) + s[|s| - 1] as int)
  }

  /** The library's definition of the hash: s[0]*31^(n-1) + ... + s[n-1], without overflow. */
  function PolyHash(s: string): int {
    if s == [] then 0 else s[0] as int * Pow31(|s| - 1) + PolyHash(s[1..])
  }

  function Pow31(n: nat): int {
    if n == 0 then 1 else 31 * Pow31(n - 1)
  }

  /** Appending a character multiplies the polynomial by 31 and adds the character. */
  lemma {:induction false} PolyHashSnoc(s: string, c: char)
    ensures PolyHash(s + [c]) == 31 * PolyHash(s) + c as int
  {
    if s == [] {
      assert [c][1..] == [];
    } else {
      assert (s + [c])[1..] == s[1..] + [c];
      PolyHashSnoc(s[1..], c);
    }
  }

  /** String.hashCode is the library's polynomial, wrapped to 32 bits. */
  lemma {:induction false} StringHashIsPolynomial(s: string)
    ensures StringHash(s) == Wrap(PolyHash(s))
  {
    if s != [] {
      var init, c := s[..|s| - 1], s[|s| - 1];
      assert s == init + [c];
      StringHashIsPolynomial(init);
      PolyHashSnoc(init, c);
      var h := StringHash(init);
      var k := (h - PolyHash(init)) / TWO_32;
      assert h == PolyHash(init) + k * TWO_32;
      assert 31 * h + c as int == PolyHash(s) + (31 * k) * TWO_32;
      WrapShift(PolyHash(s), 31 * k);
    }
  }

  /** Adding a multiple of 2^32 does not change the wrapped value. */
  lemma WrapShift(x: int, k: int)
    ensures Wrap(x + k * TWO_32) == Wrap(x)
  {
    WrapUnique(x + k * TWO_32, Wrap(x));
  }

  /**
   * Objects.hash of a sequence of element hashes (Arrays.hashCode): start
   * at 1 and fold each element as 31 * result + hash, in int arithmetic.
   */
  function ObjectsHash(hashes: seq<int>): (h: int)
    ensures IsInt32(h)
  {
    if hashes == [] then 1 else Wrap(31 * ObjectsHash(hashes[..|hashes| - 1]) + hashes[|hashes| - 1])
  }

  /** For two fields, Objects.hash is 31 * (31 + h1) + h2, wrapped to 32 bits. */
  lemma ObjectsHashPair(h1: int, h2: int)
    ensures ObjectsHash([h1, h2]) == Wrap(31 * (31 + h1) + h2)
  {
    assert [h1, h2][..1] == [h1];
    assert [h1][..0] == [];
    assert ObjectsHash([h1]) == Wrap(31 * 1 + h1);
    var w := Wrap(31 + h1);
    assert ObjectsHash([h1, h2]) == Wrap(31 * w + h2);
    var k := (w - (31 + h1)) / TWO_32;
    assert w == 31 + h1 + k * TWO_32;
    assert 31 * w + h2 == 31 * (31 + h1) + h2 + (31 * k) * TWO_32;
    WrapShift(31 * (31 + h1) + h2, 31 * k);
  }

  /** The decimal digit character for 0..9. */
  function DigitChar(d: int): char
    requires 0 <= d < 10
  {
    ('0' as int + d) as char
  }

  predicate IsDigit(c: char) {
    '0' <= c <= '9'
  }

  /** The decimal numeral of a natural number, with no leading zeros. */
  function NatToString(n: nat): (s: string)
    ensures IsNatNumeral(s)
    ensures s[0] == '0' <==> n == 0
    decreases n
  {
    if n < 10 then [DigitChar(n)] else NatToString(n / 10) + [DigitChar(n % 10)]
  }

  /** Integer.toString, which string concatenation uses: a minus sign before a negative number. */
  function IntToString(i: int): (s: string)
    ensures IsNumeral(s)
    ensures s[0] == '-' <==> i < 0
  {
    if i < 0 then "-" + NatToString(-i) else NatToString(i)
  }

  /** One or more digits, with no leading zero unless the numeral is "0" itself. */
  predicate IsNatNumeral(s: string) {
    && |s| >= 1
    && (forall k :: 0 <= k < |s| ==> IsDigit(s[k]))
    && (s[0] == '0' ==> |s| == 1)
  }

  /**
   * The numerals Integer.toString writes: a natural numeral, or a minus
   * sign before one that is not "0". A bare "-", leading zeros and "-0"
   * are not numerals here.
   */
  predicate IsNumeral(s: string) {
    || IsNatNumeral(s)
    || (|s| >= 2 && s[0] == '-' && s[1] != '0' && IsNatNumeral(s[1..]))
  }

  /** The value of a string of decimal digits. */
  function DigitsValue(s: string): (v: int)
    requires forall i :: 0 <= i < |s| ==> IsDigit(s[i])
    ensures v >= 0
  {
    if s == [] then 0
    else
      assert IsDigit(s[|s| - 1]);
      10 * DigitsValue(s[..|s| - 1]) + (s[|s| - 1] as int - '0' as int)
  }

  /** The number a numeral denotes, as Integer.parseInt reads it. */
  function ParseInt(s: string): int
    requires IsNumeral(s)
  {
    if s[0] == '-' then -DigitsValue(s[1..]) else DigitsValue(s)
  }

  /** Reading back a natural's numeral gives the natural. */
  lemma {:induction false} NatToStringValue(n: nat)
    ensures DigitsValue(NatToString(n)) == n
    decreases n
  {
    if n >= 10 {
      var s := NatToString(n);
      assert s[..|s| - 1] == NatToString(n / 10);
      NatToStringValue(n / 10);
    }
  }

  /** Reading back an int's text gives the int. */
  lemma IntToStringRoundTrip(i: int)
    ensures ParseInt(IntToString(i)) == i
  {
    if i < 0 {
      assert IntToString(i)[1..] == NatToString(-i);
      NatToStringValue(-i);
    } else {
      NatToStringValue(i);
    }
  }

  /** A natural numeral is the text of the number it denotes. */
  lemma {:induction false} NatNumeralCanonical(s: string)
    requires IsNatNumeral(s)
    ensures NatToString(DigitsValue(s)) == s
    decreases |s|
  {
    if |s| >= 2 {
      var prefix := s[..|s| - 1];
      var d := s[|s| - 1] as int - '0' as int;
      NatNumeralCanonical(prefix);
      var v := DigitsValue(prefix);
      assert prefix[0] == s[0] != '0';
      var n := DigitsValue(s);
      assert n == 10 * v + d && 0 <= d < 10;
      assert n / 10 == v && n % 10 == d;
      assert s == prefix + [DigitChar(d)];
    }
  }

  /** Every numeral is the text of the int it denotes, so reading a text back determines it. */
  lemma NumeralCanonical(s: string)
    requires IsNumeral(s)
    ensures IntToString(ParseInt(s)) == s
  {
    if IsNatNumeral(s) {
      NatNumeralCanonical(s);
    } else {
      NatNumeralCanonical(s[1..]);
      assert s == "-" + s[1..];
    }
  }

  /** Different ints have different texts. */
  lemma IntToStringInjective(i: int, j: int)
    requires IntToString(i) == IntToString(j)
    ensures i == j
  {
    IntToStringRoundTrip(i);
    IntToStringRoundTrip(j);
  }
}
