// Java's numeric behaviour that the Fitness Tracker relies on: 32-bit int
// arithmetic, truncating division, Integer.toString / Integer.parseInt, the
// infinities and NaN of double division, and the decimal text of doubles.

module JavaNumbers {
  import opened JavaText

  datatype Option<T> = None | Some(value: T)

  const INT_MIN: int := -0x8000_0000
  const INT_MAX: int := 0x7fff_ffff

  /** Java's `int`. */
  type Int32 = x: int | -0x8000_0000 <= x <= 0x7fff_ffff

  /** Two's-complement wrap-around of an `int` result. */
  function Wrap32(x: int): (r: Int32)
    ensures (r - x) % 0x1_0000_0000 == 0
    ensures INT_MIN <= x <= INT_MAX ==> r == x
  {
    (x + 0x8000_0000) % 0x1_0000_0000 - 0x8000_0000
  }

  /** Java's `a / b` on integers: the quotient truncated toward zero. */
  function JDiv(a: int, b: int): int
    requires b != 0
  {
    if (a >= 0) == (b > 0) then
      (if a >= 0 then a else -a) / (if b > 0 then b else -b)
    else
      -((if a >= 0 then a else -a) / (if b > 0 then b else -b))
  }

  /** Java's `a % b` on integers: the remainder takes the sign of `a`. */
  function JRem(a: int, b: int): int
    requires b != 0
  {
    a - JDiv(a, b) * b
  }

  lemma JDivRem(a: int, b: int)
    requires b > 0
    ensures JDiv(a, b) * b + JRem(a, b) == a
    ensures a >= 0 ==> 0 <= JRem(a, b) < b && JDiv(a, b) == a / b
    ensures a < 0 ==> -b < JRem(a, b) <= 0 && JDiv(a, b) == -((-a) / b)
  {
  }

  // ----- Integer.toString and Integer.parseInt -----

  predicate IsDigit(c: char)
  {
    '0' <= c <= '9'
  }

  function DigitChar(d: int): char
    requires 0 <= d < 10
  {
    ('0' as int + d) as char
  }

  /** The decimal digits of `n` with no leading zero. */
  function NatToDigits(n: nat): (r: string)
    ensures |r| >= 1 && forall i :: 0 <= i < |r| ==> IsDigit(r[i])
  {
    if n < 10 then [DigitChar(n)] else NatToDigits(n / 10) + [DigitChar(n % 10)]
  }

  /** The value of a string of decimal digits. */
  function DigitsValue(s: string): (r: int)
    requires forall i :: 0 <= i < |s| ==> IsDigit(s[i])
    ensures r >= 0
  {
    if |s| == 0 then 0
    else
      var init := s[..|s| - 1];
      assert IsDigit(s[|s| - 1]);
      DigitsValue(init) * 10 + (s[|s| - 1] as int - '0' as int)
  }

  /** `Integer.toString(n)` (and the text `+` appends for an `int`). */
  function IntToString(n: int): string
  {
    if n < 0 then "-" + NatToDigits(-n) else NatToDigits(n)
  }

  predicate AllDigits(s: string)
  {
    forall i :: 0 <= i < |s| ==> IsDigit(s[i])
  }

  /**
   * `Integer.parseInt(s)`: an optional sign followed by at least one decimal
   * digit, with a value in the `int` range; `None` stands for the
   * NumberFormatException thrown otherwise. No trimming is done.
   */
  function ParseInt(s: string): (r: Option<Int32>)
    ensures r.Some? ==> |s| > 0 && (s[0] == '-' || s[0] == '+' || IsDigit(s[0])) && AllDigits(s[1..])
    ensures r.Some? && s[0] != '-' ==> r.value >= 0
  {
    if |s| == 0 then None
    else
      var negative := s[0] == '-';
      var body := if s[0] == '-' || s[0] == '+' then s[1..] else s;
      if |body| == 0 || !AllDigits(body) then None
      else
        var v := if negative then -DigitsValue(body) else DigitsValue(body);
        if INT_MIN <= v <= INT_MAX then Some(v) else None
  }

  lemma {:induction false} DigitsValueOfNatToDigits(n: nat)
    ensures DigitsValue(NatToDigits(n)) == n
  {
    var s := NatToDigits(n);
    if n >= 10 {
      assert s[..|s| - 1] == NatToDigits(n / 10);
      DigitsValueOfNatToDigits(n / 10);
    }
  }

  /** `Integer.parseInt` reads back what `Integer.toString` writes. */
  lemma ParseIntOfIntToString(n: Int32)
    ensures ParseInt(IntToString(n)) == Some(n)
  {
    if n < 0 {
      var m: nat := -(n as int);
      var d := NatToDigits(m);
      var s := "-" + d;
      assert s[0] == '-' && s[1..] == d;
      DigitsValueOfNatToDigits(m);
      assert ParseInt(s) == Some(n);
    } else {
      var d := NatToDigits(n);
      assert d[0] != '-' && d[0] != '+';
      DigitsValueOfNatToDigits(n);
      assert ParseInt(d) == Some(n);
    }
  }

  /** The text of an `int` holds only the minus sign and digits. */
  lemma IntToStringChars(n: int)
    ensures |IntToString(n)| > 0
    ensures forall i :: 0 <= i < |IntToString(n)| ==> IntToString(n)[i] == '-' || IsDigit(IntToString(n)[i])
  {
  }

  /** The cast `(int) x` of a double: truncation toward zero, saturating at the `int` bounds. */
  function DoubleToInt(x: real): (r: Int32)
    ensures 0.0 <= x < INT_MAX as real ==> r as real <= x < r as real + 1.0
    ensures INT_MIN as real < x < 0.0 ==> r as real - 1.0 < x <= r as real
    ensures x >= INT_MAX as real ==> r == INT_MAX
    ensures x <= INT_MIN as real ==> r == INT_MIN
  {
    var t := if x >= 0.0 then x.Floor else -((-x).Floor);
    if t < INT_MIN then INT_MIN else if t > INT_MAX then INT_MAX else t
  }

  // ----- double division -----

  /** A Java `double` as the result of a division: a finite value, an infinity or NaN. */
  datatype JDouble = Finite(v: real) | PosInf | NegInf | NaN

  /** Java's `x / y` on doubles (signed zeros are not distinguished). */
  function Divide(x: real, y: real): (r: JDouble)
    ensures r.Finite? <==> y != 0.0
    ensures r.Finite? ==> r.v * y == x
    ensures r == NaN <==> x == 0.0 && y == 0.0
  {
    if y != 0.0 then Finite(x / y)
    else if x > 0.0 then PosInf
    else if x < 0.0 then NegInf
    else NaN
  }

  function Rank(a: JDouble): int
  {
    match a
    case NegInf => 0
    case Finite(_) => 1
    case PosInf => 2
    case NaN => 3
  }

  /** `Double.compare(a, b)`: minus infinity, the finite values, plus infinity, then NaN. */
  function Compare(a: JDouble, b: JDouble): (r: int)
    ensures r == 0 <==> a == b
    ensures -1 <= r <= 1
  {
    if Rank(a) != Rank(b) then (if Rank(a) < Rank(b) then -1 else 1)
    else if a.Finite? && a.v != b.v then (if a.v < b.v then -1 else 1)
    else 0
  }

  /** `Compare` is antisymmetric. */
  lemma CompareFlip(a: JDouble, b: JDouble)
    ensures Compare(b, a) == -Compare(a, b)
  {
  }

  /** `Compare` is transitive. */
  lemma CompareTransitive(a: JDouble, b: JDouble, c: JDouble)
    requires Compare(a, b) <= 0 && Compare(b, c) <= 0
    ensures Compare(a, c) <= 0
  {
  }

  /** `Double.compare` on two finite values is the order of the reals. */
  function CompareReal(a: real, b: real): (r: int)
    ensures r < 0 <==> a < b
    ensures r > 0 <==> a > b
  {
    Compare(Finite(a), Finite(b))
  }

  // ----- decimal text of doubles -----

  /** The characters `Double.toString` writes for a finite value. */
  predicate IsNumeral(c: char)
  {
    IsDigit(c) || c == '.' || c == '-' || c == 'E'
  }

  predicate NumeralText(s: string)
  {
    |s| > 0 && forall i :: 0 <= i < |s| ==> IsNumeral(s[i])
  }

  /**
   * The text of doubles: `show` is `Double.toString` (also the conversion `+`
   * applies to a double) and `read` is `Double.parseDouble` without its
   * trimming, `None` standing for a NumberFormatException.
   */
  datatype Numerals = Numerals(show: real -> string, read: string -> Option<real>)

  /**
   * What the model takes for granted about the text of one double `x`: it is
   * a non-empty run of digits, '.', '-' and 'E', and reading it gives `x`
   * back. Java keeps this promise for every double; a real that is no double
   * has no text of its own, so each member asks it only of the values it
   * writes and reads back.
   */
  predicate RoundTrips(nf: Numerals, x: real)
  {
    nf.read(nf.show(x)) == Some(x) && NumeralText(nf.show(x))
  }

  /** `Double.parseDouble(s)`, which trims its argument first. */
  function ParseDouble(nf: Numerals, s: string): Option<real>
  {
    nf.read(Trim(s))
  }

  /** A numeral has no whitespace at its ends. */
  lemma NumeralTrimFixed(s: string)
    requires NumeralText(s)
    ensures TrimFixed(s)
  {
  }

  /** `Double.parseDouble` reads back what `Double.toString` writes. */
  lemma ParseDoubleOfShow(nf: Numerals, x: real)
    requires RoundTrips(nf, x)
    ensures ParseDouble(nf, nf.show(x)) == Some(x)
  {
    NumeralTrimFixed(nf.show(x));
    TrimOfFixed(nf.show(x));
  }

  /** The text of a double is never empty and holds no field separator, space or `~`. */
  lemma ShowFreeOfSeparators(nf: Numerals, x: real)
    requires RoundTrips(nf, x)
    ensures |nf.show(x)| > 0 && ';' !in nf.show(x) && '~' !in nf.show(x) && ' ' !in nf.show(x)
  {
  }

  /** The text of an `int` is never empty and holds no field separator, space or `~`. */
  lemma IntTextFreeOfSeparators(n: int)
    ensures |IntToString(n)| > 0 && ';' !in IntToString(n) && '~' !in IntToString(n) && ' ' !in IntToString(n)
  {
    IntToStringChars(n);
  }
}
