/** The verification code of sms/sms.go's generateCode: a random number below
    10^codeLen printed with the verb "%0<codeLen>d", that is in decimal,
    left-padded with zeros to codeLen digits.  The random draw is a parameter;
    codeLen is at most 18 so that 10^codeLen fits in an int64. */
module SmsCode {
  import opened Validate

  function Pow10(n: nat): (r: nat)
    ensures r >= 1
  {
    if n == 0 then 1 else 10 * Pow10(n - 1)
  }

  function DigitChar(d: nat): (c: char)
    requires d < 10
    ensures IsDigit(c)
  {
    ('0' as int + d) as char
  }

  function DigitValue(c: char): (d: nat)
    requires IsDigit(c)
    ensures d < 10 && DigitChar(d) == c
  {
    c as int - '0' as int
  }

  /** The number a string of decimal digits denotes; it has fewer than |s| + 1
      digits' worth of magnitude. */
  function DecimalValue(s: string): (v: nat)
    requires AllDigits(s)
    ensures v < Pow10(|s|)
  {
    if s == [] then 0
    else
      var init := s[..|s| - 1];
      assert AllDigits(init);
      DecimalValue(init) * 10 + DigitValue(s[|s| - 1])
  }

  /** n printed in decimal, zero-padded to `width` digits. */
  function ZeroPadded(n: nat, width: nat): (s: string)
    requires n < Pow10(width)
    ensures |s| == width && AllDigits(s) && DecimalValue(s) == n
  {
    if width == 0 then ""
    else
      var init := ZeroPadded(n / 10, width - 1);
      var s := init + [DigitChar(n % 10)];
      assert s[..|s| - 1] == init;
      s
  }

  /** Reading a digit string back and printing it at its own width gives the
      string again, leading zeros included. */
  lemma {:induction false} ZeroPaddedOfDecimalValue(s: string)
    requires AllDigits(s)
    ensures ZeroPadded(DecimalValue(s), |s|) == s
  {
    if s != [] {
      var init := s[..|s| - 1];
      assert AllDigits(init);
      var n := DecimalValue(s);
      assert n / 10 == DecimalValue(init) && n % 10 == DigitValue(s[|s| - 1]);
      ZeroPaddedOfDecimalValue(init);
      assert s == init + [s[|s| - 1]];
    }
  }

  /** generateCode with the random draw `draw` taken from [0, 10^codeLen). */
  function GenerateCode(codeLen: int, draw: int): (code: string)
    requires 1 <= codeLen <= 18 && 0 <= draw < Pow10(codeLen)
    ensures |code| == codeLen && AllDigits(code) && DecimalValue(code) == draw
  {
    ZeroPadded(draw, codeLen)
  }

  /** Distinct draws give distinct codes. */
  lemma GenerateCodeInjective(codeLen: int, d1: int, d2: int)
    requires 1 <= codeLen <= 18 && 0 <= d1 < Pow10(codeLen) && 0 <= d2 < Pow10(codeLen)
    requires d1 != d2
    ensures GenerateCode(codeLen, d1) != GenerateCode(codeLen, d2)
  {
  }

  /** Every code of the configured length can be drawn. */
  lemma {:induction false} EveryCodeIsGenerated(code: string)
    requires 1 <= |code| <= 18 && AllDigits(code)
    ensures GenerateCode(|code|, DecimalValue(code)) == code
  {
    ZeroPaddedOfDecimalValue(code);
  }

  lemma LeadingZerosKept()
    ensures GenerateCode(6, 123) == "000123"
  {
    assert Pow10(1) == 10 && Pow10(2) == 100 && Pow10(3) == 1000;
    assert Pow10(4) == 10000 && Pow10(5) == 100000 && Pow10(6) == 1000000;
    assert ZeroPadded(0, 1) == "0";
    assert ZeroPadded(0, 2) == "00";
    assert ZeroPadded(0, 3) == "000";
    assert ZeroPadded(1, 4) == "0001";
    assert ZeroPadded(12, 5) == "00012";
    assert ZeroPadded(123, 6) == "000123";
  }
}
