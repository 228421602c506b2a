/** Integer parsing and printing as the two runtimes do it: TypeScript's
    Number(string), Java's Integer.parseInt, decimal printing of integers,
    two-digit zero padding and the truncating remainder `%` of both languages.
    A TypeScript number that is NaN is None. */
module Numbers {
  import opened Wrappers
  import opened Text

  const INT_MIN: int := -0x8000_0000
  const INT_MAX: int := 0x7FFF_FFFF

  predicate AllDigits(s: string) {
    forall i :: 0 <= i < |s| ==> IsDigit(s[i])
  }

  function DigitValue(c: char): (d: nat)
    requires IsDigit(c)
    ensures d < 10
  {
    c as int - '0' as int
  }

  function DigitChar(d: nat): (c: char)
    requires d < 10
    ensures IsDigit(c) && DigitValue(c) == d
  {
    ('0' as int + d) as char
  }

  /** The value of a string of decimal digits ("" is 0). */
  function DigitsValue(s: string): nat
    requires AllDigits(s)
  {
    if s == [] then 0 else DigitsValue(s[..|s| - 1]) * 10 + DigitValue(s[|s| - 1])
  }

  /** Decimal notation of a natural number. */
  function NatToString(n: nat): (r: string)
    ensures |r| > 0
  {
    if n < 10 then [DigitChar(n)] else NatToString(n / 10) + [DigitChar(n % 10)]
  }

  /** The notation is digits without a leading zero that spell n: one digit
      for 0..9, two for 10..99. */
  lemma {:induction false} NatToStringDigits(n: nat)
    ensures var r := NatToString(n);
            AllDigits(r) && DigitsValue(r) == n && (|r| > 1 ==> r[0] != '0')
            && (n < 10 <==> |r| == 1) && (10 <= n < 100 <==> |r| == 2)
  {
    if n >= 10 {
      NatToStringDigits(n / 10);
      var r := NatToString(n);
      assert r[..|r| - 1] == NatToString(n / 10);
    }
  }

  /** Decimal notation of an integer: Java's Integer.toString and
      TypeScript's String(n) for an integral number. */
  function IntToString(i: int): (r: string)
    ensures |r| > 0
    ensures i < 0 ==> r[0] == '-' && |r| >= 2
    ensures i >= 0 ==> r == NatToString(i)
  {
    if i < 0 then "-" + NatToString(-i) else NatToString(i)
  }

  /** `padStart(2, "0")` in TypeScript and the `%02d` conversion in Java,
      which agree on decimal integers: a lone digit gets a leading zero and
      anything longer (every negative number included) is left alone. */
  function Pad2(s: string): (r: string)
    ensures |r| >= 2
    ensures |s| >= 2 ==> r == s
  {
    if |s| == 0 then "00" else if |s| == 1 then "0" + s else s
  }

  /** Java's `%02d` conversion of a number that is not negative: a leading
      zero for 0..9, plain decimal notation otherwise. */
  function Format02d(n: nat): string {
    if n < 10 then "0" + NatToString(n) else NatToString(n)
  }

  /** `%02d` is padStart(2, "0") of the decimal notation. */
  lemma Format02dIsPad2(n: nat)
    ensures Format02d(n) == Pad2(IntToString(n))
  {
  }

  /** Two-digit decimal notation of a number below 100. */
  lemma TwoDigitsOf(n: nat)
    requires n < 100
    ensures |Pad2(NatToString(n))| == 2 && AllDigits(Pad2(NatToString(n)))
    ensures DigitsValue(Pad2(NatToString(n))) == n
  {
    var s := NatToString(n);
    var r := Pad2(s);
    NatToStringDigits(n);
    if n < 10 {
      assert r == ['0', s[0]];
      assert r[..1] == ['0'];
    }
  }

  /** The remainder of Java's and TypeScript's `%`: it takes the sign of the
      dividend (truncated division), unlike Dafny's Euclidean `%`. */
  function TruncRem(a: int, b: int): (r: int)
    requires b > 0
    ensures a >= 0 ==> 0 <= r < b
    ensures a < 0 ==> -b < r <= 0
  {
    if a >= 0 then a % b else -((-a) % b)
  }

  /** An optional sign followed by one or more decimal digits. */
  function ParseSignedDigits(s: string): (r: Option<int>)
    ensures r.Some? <==> (|s| > 0 && AllDigits(s)) || (|s| > 1 && (s[0] == '+' || s[0] == '-') && AllDigits(s[1..]))
  {
    if |s| > 0 && AllDigits(s) then Some(DigitsValue(s) as int)
    else if |s| > 1 && s[0] == '+' && AllDigits(s[1..]) then Some(DigitsValue(s[1..]) as int)
    else if |s| > 1 && s[0] == '-' && AllDigits(s[1..]) then Some(0 - DigitsValue(s[1..]) as int)
    else None
  }

  /** Java's Integer.parseInt(s): an optional sign, decimal digits, a value
      in the 32-bit range; anything else throws NumberFormatException (None). */
  function JavaParseInt(s: string): (r: Option<int>)
    ensures r.Some? ==> INT_MIN <= r.value <= INT_MAX
    ensures r.Some? ==> ParseSignedDigits(s) == r
  {
    match ParseSignedDigits(s)
    case Some(v) => if INT_MIN <= v <= INT_MAX then Some(v) else None
    case None => None
  }

  /** TypeScript's Number(s) on a string that is expected to hold an integer:
      surrounding white space is ignored, the empty string is 0, and an
      optional sign with decimal digits is that integer; everything else is
      NaN (None). */
  function JsNumber(s: string): (r: Option<int>)
    ensures JsTrim(s) == "" ==> r == Some(0)
  {
    var t := JsTrim(s);
    if t == "" then Some(0) else ParseSignedDigits(t)
  }

  /** Number(undefined) is NaN. */
  function JsNumberOf(s: Option<string>): Option<int> {
    match s
    case None => None
    case Some(t) => JsNumber(t)
  }

  /** Whatever Java's parseInt accepts, TypeScript's Number reads as the same
      integer (the converse fails: Number accepts " 7", "" and values beyond
      32 bits). */
  lemma JavaParseIntAgreesWithJsNumber(s: string)
    requires JavaParseInt(s).Some?
    ensures JsNumber(s) == JavaParseInt(s)
  {
    assert IsDigit(s[|s| - 1]);
    TrimStartFixed(s, IsJsWhitespace);
    TrimEndFixed(s, IsJsWhitespace);
  }

  /** A run of digits within the 32-bit range is what parseInt reads. */
  lemma JavaParseIntOfDigits(d: string)
    requires |d| > 0 && AllDigits(d) && DigitsValue(d) <= INT_MAX
    ensures JavaParseInt(d) == Some(DigitsValue(d) as int)
  {
  }

  /** Digits of a well-formed decimal string read back as that number. */
  lemma ParseNatToString(n: nat)
    ensures ParseSignedDigits(NatToString(n)) == Some(n)
    ensures n <= INT_MAX ==> JavaParseInt(NatToString(n)) == Some(n)
  {
    NatToStringDigits(n);
  }
}
