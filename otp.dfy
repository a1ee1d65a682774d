/** The one-time-password schema: a non-empty string of exactly six ASCII digits. */
module Otp {
  import opened Text

  const Required := "OTP is required"
  const SixDigits := "OTP must be exactly 6 digits (numbers only)"

  /** The issues the schema reports, in order; both checks always run. */
  function OtpIssues(s: string): seq<string>
  {
    (if s == "" then [Required] else []) +
    (if |s| == 6 && AllDigits(s) then [] else [SixDigits])
  }

  predicate OtpValid(s: string)
  {
    OtpIssues(s) == []
  }

  /** A code is accepted iff it has exactly six characters, each an ASCII digit. */
  lemma OtpValidIff(s: string)
    ensures OtpValid(s) <==> |s| == 6 && forall i :: 0 <= i < 6 ==> '0' <= s[i] <= '9'
  {
  }

  /** The empty code is rejected, and its first message is that it is required. */
  lemma EmptyRejected()
    ensures !OtpValid("") && OtpIssues("")[0] == Required
  {
  }

  /** Five or seven digits are rejected. */
  lemma WrongLengthRejected(s: string)
    requires AllDigits(s) && (|s| == 5 || |s| == 7)
    ensures OtpIssues(s) == [SixDigits]
  {
  }

  /** One character that is not an ASCII digit is enough to reject a code. */
  lemma NonDigitRejected(s: string, i: nat)
    requires i < |s| && !IsDigit(s[i])
    ensures !OtpValid(s)
  {
  }

  /** The last `width` decimal digits of `n`, zero-padded. */
  function Padded(n: nat, width: nat): (s: string)
    ensures |s| == width && AllDigits(s)
  {
    if width == 0 then [] else Padded(n / 10, width - 1) + [DigitChar(n % 10)]
  }

  /** A run of digits is the padded rendering of its value, which fits its width. */
  lemma {:induction false} PaddedOfDigits(s: string)
    requires AllDigits(s)
    ensures DigitsValue(s) < Pow10(|s|)
    ensures Padded(DigitsValue(s), |s|) == s
    decreases |s|
  {
    if s != [] {
      var init := s[..|s| - 1];
      PaddedOfDigits(init);
      var d := s[|s| - 1] as int - '0' as int;
      assert DigitsValue(s) == DigitsValue(init) * 10 + d;
      SplitLast(DigitsValue(init), d);
      assert DigitChar(d) == s[|s| - 1];
      assert Padded(DigitsValue(s), |s|) == Padded(DigitsValue(init), |s| - 1) + [DigitChar(d)];
      assert s == init + [s[|s| - 1]];
    }
  }

  lemma SplitLast(a: nat, d: nat)
    requires d < 10
    ensures (a * 10 + d) / 10 == a && (a * 10 + d) % 10 == d
  {
  }

  /** The six-digit codes are exactly the zero-padded renderings of 0 to 999999. */
  lemma OtpValidCodes(s: string)
    ensures OtpValid(s) <==> exists n :: 0 <= n < 1000000 && s == Padded(n, 6)
  {
    if OtpValid(s) {
      PaddedOfDigits(s);
      assert Pow10(6) == 1000000;
      assert 0 <= DigitsValue(s) < 1000000 && s == Padded(DigitsValue(s), 6);
    }
  }
}
