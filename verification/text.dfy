/**
 * The string primitives the server relies on: the text ordering used by
 * `ORDER BY`, JavaScript's `toLowerCase`, `String.prototype.includes` and
 * the global `parseInt`.
 */
module Text {
  import opened Outcomes

  // ---------------------------------------------------------------------
  // Ordering of text keys
  // ---------------------------------------------------------------------

  /** Lexicographic order on strings by code point: the binary collation
      assumed for every `ORDER BY` over a text column. */
  predicate StrLe(a: string, b: string)
    decreases |a|
  {
    |a| == 0 || (|b| > 0 && (a[0] < b[0] || (a[0] == b[0] && StrLe(a[1..], b[1..]))))
  }

  lemma {:induction false} StrLeTotal(a: string, b: string)
    ensures StrLe(a, b) || StrLe(b, a)
    decreases |a|
  {
    if |a| > 0 && |b| > 0 && a[0] == b[0] {
      StrLeTotal(a[1..], b[1..]);
    }
  }

  lemma {:induction false} StrLeTransitive(a: string, b: string, c: string)
    requires StrLe(a, b) && StrLe(b, c)
    ensures StrLe(a, c)
    decreases |a|
  {
    if |a| > 0 && a[0] == b[0] && b[0] == c[0] {
      StrLeTransitive(a[1..], b[1..], c[1..]);
    }
  }

  lemma {:induction false} StrLeAntisymmetric(a: string, b: string)
    requires StrLe(a, b) && StrLe(b, a)
    ensures a == b
    decreases |a|
  {
    if |a| > 0 {
      StrLeAntisymmetric(a[1..], b[1..]);
      assert a == [a[0]] + a[1..];
      assert b == [b[0]] + b[1..];
    }
  }

  // ---------------------------------------------------------------------
  // toLowerCase
  // ---------------------------------------------------------------------

  /** The lower-case mapping of one character: ASCII letters, plus the
      KELVIN SIGN, the one non-ASCII character whose lower case is ASCII. */
  function LowerChar(c: char): char
  {
    if 'A' <= c <= 'Z' then (c as int + 32) as char
    else if c == '\U{212A}' then 'k'
    else c
  }

  function Lower(s: string): (r: string)
    ensures |r| == |s|
    ensures forall i :: 0 <= i < |s| ==> r[i] == LowerChar(s[i])
  {
    seq(|s|, i requires 0 <= i < |s| => LowerChar(s[i]))
  }

  /** Lower-casing twice is lower-casing once. */
  lemma LowerIdempotent(s: string)
    ensures Lower(Lower(s)) == Lower(s)
  {
    assert forall i :: 0 <= i < |s| ==> LowerChar(LowerChar(s[i])) == LowerChar(s[i]);
  }

  // ---------------------------------------------------------------------
  // includes
  // ---------------------------------------------------------------------

  predicate StartsWith(s: string, prefix: string)
  {
    |prefix| <= |s| && s[..|prefix|] == prefix
  }

  /** `hay.includes(needle)`: the empty needle occurs in every string. */
  predicate Contains(hay: string, needle: string)
    decreases |hay|
  {
    StartsWith(hay, needle) || (|hay| > 0 && Contains(hay[1..], needle))
  }

  /** `needle` occurs in `hay` starting at offset `i`. */
  predicate OccursAt(hay: string, needle: string, i: int)
  {
    0 <= i <= |hay| - |needle| && hay[i..i + |needle|] == needle
  }

  /** `Contains` holds exactly when the needle occurs at some offset. */
  lemma {:induction false} ContainsIffOccursAt(hay: string, needle: string)
    ensures Contains(hay, needle) <==> exists i :: OccursAt(hay, needle, i)
    decreases |hay|
  {
    if StartsWith(hay, needle) {
      assert OccursAt(hay, needle, 0);
    } else if |hay| > 0 {
      ContainsIffOccursAt(hay[1..], needle);
      if Contains(hay[1..], needle) {
        var i :| OccursAt(hay[1..], needle, i);
        assert OccursAt(hay, needle, i + 1);
      }
      if i :| OccursAt(hay, needle, i) {
        assert i > 0;
        assert OccursAt(hay[1..], needle, i - 1);
      }
    }
  }

  // ---------------------------------------------------------------------
  // parseInt (no radix argument)
  // ---------------------------------------------------------------------

  /** The characters `parseInt` skips before the number: the white space
      (TAB, VT, FF, SP, NBSP, ZWNBSP and every space separator of category
      Zs) and line terminator characters of ECMAScript. */
  predicate IsJsSpace(c: char)
  {
    || c == '\t' || c == '\U{B}' || c == '\U{C}' || c == ' ' || c == '\U{A0}' || c == '\U{FEFF}'
    || c == '\n' || c == '\r' || c == '\U{2028}' || c == '\U{2029}'
    || c == '\U{1680}' || ('\U{2000}' <= c <= '\U{200A}') || c == '\U{202F}' || c == '\U{205F}'
    || c == '\U{3000}'
  }

  function TrimStart(s: string): (r: string)
    ensures |r| <= |s| && r == s[|s| - |r|..]
    ensures |r| > 0 ==> !IsJsSpace(r[0])
    decreases |s|
  {
    if |s| > 0 && IsJsSpace(s[0]) then TrimStart(s[1..]) else s
  }

  /** The value of a digit in any radix up to 36, or `None` for a non-digit. */
  function DigitValue(c: char): Option<nat>
  {
    if '0' <= c <= '9' then Some(c as int - '0' as int)
    else if 'a' <= c <= 'z' then Some(c as int - 'a' as int + 10)
    else if 'A' <= c <= 'Z' then Some(c as int - 'A' as int + 10)
    else None
  }

  predicate IsDigitIn(c: char, radix: nat)
  {
    DigitValue(c).Some? && DigitValue(c).value < radix
  }

  /** The longest prefix of `s` made of digits of the radix. */
  function DigitPrefix(s: string, radix: nat): (z: string)
    ensures |z| <= |s| && z == s[..|z|]
    ensures forall i :: 0 <= i < |z| ==> IsDigitIn(z[i], radix)
    ensures |z| < |s| ==> !IsDigitIn(s[|z|], radix)
    decreases |s|
  {
    if |s| > 0 && IsDigitIn(s[0], radix) then [s[0]] + DigitPrefix(s[1..], radix) else []
  }

  /** The number a string of digits denotes, most significant digit first. */
  function DigitsValue(z: string, radix: nat): int
    requires forall i :: 0 <= i < |z| ==> IsDigitIn(z[i], radix)
    decreases |z|
  {
    if z == [] then 0
    else
      var init := z[..|z| - 1];
      assert forall i :: 0 <= i < |init| ==> init[i] == z[i];
      assert IsDigitIn(z[|z| - 1], radix);
      DigitsValue(init, radix) * radix + DigitValue(z[|z| - 1]).value
  }

  /** What `parseInt` reads after the leading white space: the sign, the
      radix (16 after a "0x"/"0X" prefix, otherwise 10) and the rest. */
  datatype Numeral = Numeral(negative: bool, radix: nat, rest: string)

  function ScanSign(t: string): (n: Numeral)
    ensures n.radix == 10 && |n.rest| <= |t|
  {
    if |t| > 0 && t[0] == '-' then Numeral(true, 10, t[1..])
    else if |t| > 0 && t[0] == '+' then Numeral(false, 10, t[1..])
    else Numeral(false, 10, t)
  }

  function ScanRadix(n: Numeral): Numeral
  {
    var u := n.rest;
    if |u| >= 2 && u[0] == '0' && (u[1] == 'x' || u[1] == 'X') then n.(radix := 16, rest := u[2..])
    else n
  }

  /** The number `parseInt` returns: NaN, a finite double (always an
      integer here), or an infinity. -0 and +0 are both `Finite(0)`: they
      are `===` to each other and to every other zero. */
  datatype JsNumber = NaN | Finite(value: int) | Infinite(negative: bool)

  const TwoTo53: int := 0x20_0000_0000_0000

  /** 2^1024: every magnitude that rounds to it or beyond is an infinity. */
  const TwoTo1024: int := 0x1_0000_0000_0000_0000_0000_0000_0000_0000_0000_0000_0000_0000_0000_0000_0000_0000_0000_0000_0000_0000_0000_0000_0000_0000_0000_0000_0000_0000_0000_0000_0000_0000_0000_0000_0000_0000_0000_0000_0000_0000_0000_0000_0000_0000_0000_0000_0000_0000_0000_0000_0000_0000_0000_0000_0000_0000_0000_0000_0000_0000_0000_0000_0000_0000

  /** `v` rounded to a 53-bit significand by halving it until it fits,
      remembering the first bit dropped (`half`) and whether any later one
      was set (`sticky`); it then rounds to the nearest, and on a tie to the
      even significand (roundTiesToEven of IEEE 754). Overflow is left to
      `ToNumber`. */
  function Round(v: nat, half: bool, sticky: bool): nat
    decreases v
  {
    if v < TwoTo53 then (if half && (sticky || v % 2 == 1) then v + 1 else v)
    else 2 * Round(v / 2, v % 2 == 1, sticky || half)
  }

  function RoundToDouble(v: nat): nat
  {
    Round(v, false, false)
  }

  /** The Number value of a mathematical integer: its magnitude rounded to
      a double, or an infinity when that rounding reaches 2^1024. */
  function ToNumber(n: int): JsNumber
  {
    var m: nat := if n < 0 then -n else n;
    var v: int := RoundToDouble(m);
    if v >= TwoTo1024 then Infinite(n < 0) else Finite(if n < 0 then -v else v)
  }

  /** `parseInt(s)`: skip leading white space, read a sign and a "0x"
      prefix, then the longest run of digits; no digit at all is NaN.
      The integer the digits denote is rounded to a double, exactly as
      the ECMAScript standard defines it for radix 16 and as it permits it
      for radix 10. */
  function ParseInt(s: string): JsNumber
  {
    var n := ScanRadix(ScanSign(TrimStart(s)));
    var z := DigitPrefix(n.rest, n.radix);
    if z == [] then NaN
    else
      var v := DigitsValue(z, n.radix);
      ToNumber(if n.negative then -v else v)
  }

  /** Every integer of magnitude at most 2^53 is a double. */
  lemma ExactUpToTwoTo53(n: int)
    requires -TwoTo53 <= n <= TwoTo53
    ensures ToNumber(n) == Finite(n)
  {
    var m: nat := if n < 0 then -n else n;
    if m == TwoTo53 {
      assert Round(m, false, false) == 2 * Round(m / 2, false, false);
    }
  }

  /** Past 2^53 the doubles are two apart, and a tie goes to the even
      significand: 2^53 + 1 rounds down to 2^53, 2^53 + 3 up to 2^53 + 4. */
  lemma RoundsAboveTwoTo53()
    ensures ToNumber(TwoTo53 + 1) == Finite(TwoTo53)
    ensures ToNumber(TwoTo53 + 3) == Finite(TwoTo53 + 4)
  {
    assert Round(TwoTo53 + 1, false, false) == 2 * Round(TwoTo53 / 2, true, false);
    assert Round(TwoTo53 + 3, false, false) == 2 * Round(TwoTo53 / 2 + 1, true, false);
  }

  /** The decimal numeral of an integer: a minus sign for a negative one,
      then its digits without leading zeros. `String(n)` writes an integer
      this way when its magnitude is below 10^21. */
  function Decimal(n: int): string
  {
    if n < 0 then "-" + Digits(-n) else Digits(n)
  }

  function Digits(n: nat): (r: string)
    ensures |r| > 0
    ensures forall i :: 0 <= i < |r| ==> '0' <= r[i] <= '9'
  {
    if n < 10 then [('0' as int + n) as char]
    else Digits(n / 10) + [('0' as int + n % 10) as char]
  }

  lemma {:induction false} DigitPrefixOfDigits(z: string)
    requires forall i :: 0 <= i < |z| ==> '0' <= z[i] <= '9'
    ensures DigitPrefix(z, 10) == z
    decreases |z|
  {
    if |z| > 0 {
      DigitPrefixOfDigits(z[1..]);
      assert z == [z[0]] + z[1..];
    }
  }

  lemma {:induction false} DigitsValueOfDigits(n: nat)
    ensures forall i :: 0 <= i < |Digits(n)| ==> IsDigitIn(Digits(n)[i], 10)
    ensures DigitsValue(Digits(n), 10) == n
    decreases n
  {
    var d := Digits(n);
    if n >= 10 {
      DigitsValueOfDigits(n / 10);
      assert d[..|d| - 1] == Digits(n / 10);
    }
  }

  lemma ScanDecimal(n: int)
    ensures ScanRadix(ScanSign(TrimStart(Decimal(n)))) == Numeral(n < 0, 10, Digits(if n < 0 then -n else n))
  {
    var s := Decimal(n);
    var m: nat := if n < 0 then -n else n;
    var ds := Digits(m);
    assert '0' <= ds[0] <= '9';
    assert !IsJsSpace(s[0]);
    assert TrimStart(s) == s;
    if n < 0 {
      assert s[1..] == ds;
      assert ScanSign(s) == Numeral(true, 10, ds);
    } else {
      assert ScanSign(s) == Numeral(false, 10, ds);
    }
    assert |ds| >= 2 ==> '0' <= ds[1] <= '9';
  }

  /** `parseInt` reads an integer written in decimal as its Number value:
      itself up to 2^53 in magnitude, and rounded to a double beyond. */
  lemma ParseIntDecimal(n: int)
    ensures ParseInt(Decimal(n)) == ToNumber(n)
    ensures -TwoTo53 <= n <= TwoTo53 ==> ParseInt(Decimal(n)) == Finite(n)
  {
    var m: nat := if n < 0 then -n else n;
    DigitsValueOfDigits(m);
    DigitPrefixOfDigits(Digits(m));
    ScanDecimal(n);
    if -TwoTo53 <= n <= TwoTo53 {
      ExactUpToTwoTo53(n);
    }
  }

  /** `parseInt("9007199254740993")` is 9007199254740992: past 2^53 the
      numeral and the number it reads differ. */
  lemma ParseIntRoundsPastTwoTo53()
    ensures ParseInt(Decimal(TwoTo53 + 1)) == Finite(TwoTo53)
  {
    ParseIntDecimal(TwoTo53 + 1);
    RoundsAboveTwoTo53();
  }

  /** parseInt stops at the first character that is not a digit. */
  lemma ParseIntStopsAtNonDigit()
    ensures ParseInt("7b") == Finite(7)
  {
    var t := "7b";
    assert TrimStart(t) == t;
    assert ScanSign(t) == Numeral(false, 10, t);
    assert ScanRadix(Numeral(false, 10, t)) == Numeral(false, 10, t);
    assert DigitPrefix(t[1..], 10) == [];
    assert DigitPrefix(t, 10) == "7";
    assert "7"[..0] == [];
    assert DigitsValue("7", 10) == 7;
    ExactUpToTwoTo53(7);
  }

  /** A string without leading digits parses to NaN. */
  lemma ParseIntOfWordIsNaN()
    ensures ParseInt("ward") == NaN
  {
    var t := "ward";
    assert DigitValue(t[0]) == Some(32);
    assert !IsJsSpace(t[0]);
    assert TrimStart(t) == t;
    assert ScanRadix(ScanSign(t)) == Numeral(false, 10, t);
    assert DigitPrefix(t, 10) == "";
  }
}
