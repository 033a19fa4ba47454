/** The phone-number rule of util/validate.go: exactly eleven characters, every
    one a decimal digit. */
module Validate {

  predicate IsDigit(c: char) {
    '0' <= c <= '9'
  }

  /** Whether every character is a digit; stops at the first one that is not. */
  function AllDigits(s: string): (r: bool)
    ensures r <==> forall i :: 0 <= i < |s| ==> IsDigit(s[i])
  {
    if s == [] then true
    else if !IsDigit(s[0]) then false
    else
      assert forall i :: 1 <= i < |s| ==> s[i] == s[1..][i - 1];
      AllDigits(s[1..])
  }

  /** The length test first, then the digit test. */
  function ValidatePhone(phone: string): (ok: bool)
    ensures ok <==> |phone| == 11 && forall i :: 0 <= i < |phone| ==> IsDigit(phone[i])
  {
    if |phone| != 11 then false
    else AllDigits(phone)
  }

  lemma RejectedExamples()
    ensures !ValidatePhone("12345")
    ensures !ValidatePhone("12345678901a")
    ensures !ValidatePhone("12345a7890b")
    ensures ValidatePhone("13800138000")
  {
    assert !IsDigit("12345a7890b"[5]);
  }
}
