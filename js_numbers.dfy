/** The string-to-number coercions the handlers rely on: `Number(s)`, which
    `page * 8` applies to a route parameter, and `parseInt(s, 10)`, which the
    cursor pagers apply to the `tokenId` parameter. */
module JsNumbers {

  /** The JavaScript numbers that arise here: NaN and integral values.
      Negative zero behaves like zero in every use below, so it is not
      told apart. */
  datatype Number = NaN | Int(value: int)

  predicate IsDigit(c: char) { '0' <= c <= '9' }

  /** Every character of `s` is a decimal digit; read from the last
      character, as `DecimalValue` reads them. */
  predicate AllDigits(s: string) {
    |s| == 0 || (AllDigits(s[..|s| - 1]) && IsDigit(s[|s| - 1]))
  }

  /** A non-empty run of decimal digits; leading zeros are allowed. */
  predicate IsDigitString(s: string) { |s| > 0 && AllDigits(s) }

  function DigitValue(c: char): (d: nat)
    requires IsDigit(c)
    ensures d < 10
  {
    c as int - '0' as int
  }

  function DigitChar(d: nat): (c: char)
    requires d < 10
    ensures IsDigit(c) && DigitValue(c) == d
  {
    (d + '0' as int) as char
  }

  /** The value of a run of decimal digits, the last digit being the units. */
  function DecimalValue(s: string): nat
    requires AllDigits(s)
  {
    if |s| == 0 then 0 else 10 * DecimalValue(s[..|s| - 1]) + DigitValue(s[|s| - 1])
  }

  /** `String(n)` for a natural number: its decimal digits, most significant first. */
  function NatToDecimal(n: nat): (s: string)
    ensures IsDigitString(s)
    ensures DecimalValue(s) == n
  {
    if n < 10 then [DigitChar(n)]
    else
      var front := NatToDecimal(n / 10);
      var s := front + [DigitChar(n % 10)];
      assert s[..|s| - 1] == front;
      s
  }

  /** The characters ECMAScript trims around a numeric string: white space
      and line terminators. */
  predicate IsWhiteSpace(c: char) {
    var k := c as int;
    k == 0x09 || k == 0x0A || k == 0x0B || k == 0x0C || k == 0x0D || k == 0x20
    || k == 0xA0 || k == 0x1680 || (0x2000 <= k <= 0x200A) || k == 0x2028
    || k == 0x2029 || k == 0x202F || k == 0x205F || k == 0x3000 || k == 0xFEFF
  }

  function TrimStart(s: string): (r: string)
    ensures |r| <= |s|
    ensures |r| > 0 ==> !IsWhiteSpace(r[0])
  {
    if |s| > 0 && IsWhiteSpace(s[0]) then TrimStart(s[1..]) else s
  }

  function TrimEnd(s: string): (r: string)
    ensures |r| <= |s|
    ensures |r| > 0 ==> !IsWhiteSpace(r[|r| - 1])
  {
    if |s| > 0 && IsWhiteSpace(s[|s| - 1]) then TrimEnd(s[..|s| - 1]) else s
  }

  /** The value of a trimmed numeric literal, in the integer forms: the
      empty string is 0 and an optional sign followed by decimal digits is
      that integer; everything else is NaN here. */
  function LiteralValue(t: string): Number {
    if t == "" then Int(0)
    else if IsDigitString(t) then Int(DecimalValue(t))
    else if t[0] == '+' && IsDigitString(t[1..]) then Int(DecimalValue(t[1..]))
    else if t[0] == '-' && IsDigitString(t[1..]) then Int(-(DecimalValue(t[1..]) as int))
    else NaN
  }

  /** `Number(s)`: the literal left once white space is trimmed from both ends. */
  function ToNumber(s: string): Number {
    LiteralValue(TrimEnd(TrimStart(s)))
  }

  /** The longest prefix of `s` made of decimal digits. */
  function DigitPrefix(s: string): (d: string)
    ensures AllDigits(d) && |d| <= |s| && d == s[..|d|]
    ensures |d| < |s| ==> !IsDigit(s[|d|])
  {
    if |s| > 0 && IsDigit(s[0]) then
      var rest := DigitPrefix(s[1..]);
      AllDigitsPrepend(s[0], rest);
      [s[0]] + rest
    else []
  }

  /** `parseInt(s, 10)`: skip leading white space, read an optional sign and
      then the longest run of decimal digits; NaN when that run is empty. */
  function ParseInt(s: string): Number {
    var t := TrimStart(s);
    var negative := |t| > 0 && t[0] == '-';
    var rest := if |t| > 0 && (t[0] == '-' || t[0] == '+') then t[1..] else t;
    var d := DigitPrefix(rest);
    if d == [] then NaN
    else if negative then Int(-(DecimalValue(d) as int))
    else Int(DecimalValue(d))
  }

  /** `x * k` for an integer `k`. */
  function Times(x: Number, k: int): Number {
    match x
    case NaN => NaN
    case Int(v) => Int(v * k)
  }

  /** `x < bound`: every comparison with NaN is false. */
  predicate LessThan(x: Number, bound: int) {
    x.Int? && x.value < bound
  }

  /** ToIntegerOrInfinity, as `slice` applies it to its arguments: NaN is 0. */
  function ToIntegerOrInfinity(x: Number): int {
    match x
    case NaN => 0
    case Int(v) => v
  }

  // Lemmas about the coercions

  lemma {:induction false} AllDigitsAt(s: string, i: int)
    requires AllDigits(s) && 0 <= i < |s|
    ensures IsDigit(s[i])
  {
    if i < |s| - 1 {
      AllDigitsAt(s[..|s| - 1], i);
    }
  }

  lemma {:induction false} AllDigitsPrepend(c: char, s: string)
    requires IsDigit(c) && AllDigits(s)
    ensures AllDigits([c] + s)
  {
    if |s| > 0 {
      assert ([c] + s)[..|s|] == [c] + s[..|s| - 1];
      AllDigitsPrepend(c, s[..|s| - 1]);
    } else {
      assert ([c] + s)[..0] == [];
    }
  }

  lemma {:induction false} AllDigitsRest(s: string)
    requires AllDigits(s) && |s| > 0
    ensures AllDigits(s[1..])
  {
    if |s| > 1 {
      assert s[1..][..|s| - 2] == s[..|s| - 1][1..];
      AllDigitsRest(s[..|s| - 1]);
    }
  }

  lemma DigitStringIsTrimmed(s: string)
    requires IsDigitString(s)
    ensures TrimEnd(TrimStart(s)) == s
  {
    AllDigitsAt(s, 0);
    AllDigitsAt(s, |s| - 1);
    assert !IsWhiteSpace(s[0]);
    assert !IsWhiteSpace(s[|s| - 1]);
  }

  /** A decimal digit string converts to its value. */
  lemma ToNumberOfDigits(s: string)
    requires IsDigitString(s)
    ensures ToNumber(s) == Int(DecimalValue(s))
  {
    DigitStringIsTrimmed(s);
    assert LiteralValue(s) == Int(DecimalValue(s));
  }

  /** Appending the character "1" to a digit string, as `page + 1` does,
      gives ten times its value plus one. */
  lemma ToNumberAppendOne(s: string)
    requires IsDigitString(s)
    ensures IsDigitString(s + "1") && DecimalValue(s + "1") == 10 * DecimalValue(s) + 1
    ensures ToNumber(s + "1") == Int(10 * DecimalValue(s) + 1)
  {
    var t := s + "1";
    assert t[..|t| - 1] == s;
    ToNumberOfDigits(t);
  }

  /** A minus sign before a digit string negates its value. */
  lemma ToNumberOfNegative(d: string)
    requires IsDigitString(d)
    ensures ToNumber("-" + d) == Int(-(DecimalValue(d) as int))
  {
    var t := "-" + d;
    assert TrimEnd(TrimStart(t)) == t by {
      assert TrimStart(t) == t;
      AllDigitsAt(d, |d| - 1);
      assert t[|t| - 1] == d[|d| - 1];
    }
    assert LiteralValue(t) == Int(-(DecimalValue(d) as int)) by {
      assert !IsDigitString(t) by {
        if AllDigits(t) {
          AllDigitsAt(t, 0);
        }
      }
      assert t[1..] == d;
    }
  }

  /** Appending "1" to a negative page string, as `page + 1` does, gives the
      negation of ten times its value plus one. */
  lemma ToNumberOfNegativeAppendOne(d: string)
    requires IsDigitString(d)
    ensures ToNumber("-" + d + "1") == Int(-(10 * DecimalValue(d) + 1))
  {
    var e := d + "1";
    assert IsDigitString(e) && DecimalValue(e) == 10 * DecimalValue(d) + 1 by {
      ToNumberAppendOne(d);
    }
    assert ToNumber("-" + e) == Int(-(DecimalValue(e) as int)) by {
      ToNumberOfNegative(e);
    }
    assert "-" + d + "1" == "-" + e by {
      assert forall i | 0 <= i < |e| + 1 :: ("-" + d + "1")[i] == ("-" + e)[i];
    }
  }

  /** The canonical decimal form of `n` converts back to `n`. */
  lemma ToNumberOfNatToDecimal(n: nat)
    ensures ToNumber(NatToDecimal(n)) == Int(n)
  {
    ToNumberOfDigits(NatToDecimal(n));
  }

  lemma {:induction false} DigitPrefixOfDigits(d: string, tail: string)
    requires AllDigits(d)
    requires tail == [] || !IsDigit(tail[0])
    ensures DigitPrefix(d + tail) == d
  {
    if d != [] {
      AllDigitsAt(d, 0);
      AllDigitsRest(d);
      assert (d + tail)[1..] == d[1..] + tail;
      DigitPrefixOfDigits(d[1..], tail);
    } else {
      assert d + tail == tail;
    }
  }

  /** `parseInt` reads a digit string and stops at the first character that
      is not a digit. */
  lemma ParseIntOfDigits(d: string, tail: string)
    requires IsDigitString(d)
    requires tail == [] || !IsDigit(tail[0])
    ensures ParseInt(d + tail) == Int(DecimalValue(d))
  {
    var s := d + tail;
    AllDigitsAt(d, 0);
    assert s[0] == d[0];
    assert TrimStart(s) == s;
    DigitPrefixOfDigits(d, tail);
  }
}
