/** The mobile-number rules shared by the winner-declaration dialog and page:
    the validator `^[6-9]\d{9}$` and the keystroke filter of the manual field. */
module Mobile {
  import opened Pattern

  /** `^[6-9]\d{9}$`. */
  const MobilePattern: seq<CharClass> := [Span('6', '9')] + Repeat(Digit, 9)

  /** Longest value the manual field keeps. */
  const MaxMobileLength: nat := 10

  predicate IsDigit(c: char) {
    '0' <= c <= '9'
  }

  predicate IsDigitString(s: string) {
    forall i :: 0 <= i < |s| ==> IsDigit(s[i])
  }

  /** `isValidMobile`: a ten-digit Indian mobile number. */
  predicate IsValidMobile(s: string) {
    FullMatch(MobilePattern, s)
  }

  /** The test of `handleManualChange`: `/^\d*$/` and at most ten characters. */
  predicate KeystrokeAccepted(value: string) {
    IsDigitString(value) && |value| <= MaxMobileLength
  }

  /** A valid mobile is exactly ten ASCII digits, the first one 6, 7, 8 or 9. */
  lemma ValidMobileShape(s: string)
    ensures IsValidMobile(s) <==> |s| == 10 && IsDigitString(s) && '6' <= s[0] <= '9'
  {
    FullMatchPointwise(MobilePattern, s);
    if |s| == 10 {
      forall i | 0 <= i < 10 ensures MobilePattern[i] == if i == 0 then Span('6', '9') else Digit {
        if i > 0 { assert MobilePattern[i] == Repeat(Digit, 9)[i - 1]; }
      }
    }
  }

  /** A valid mobile never contains a line break, a quote or white space. */
  lemma ValidMobileIsPlain(s: string)
    requires IsValidMobile(s)
    ensures forall i :: 0 <= i < |s| ==> IsDigit(s[i])
    ensures |s| == 10
  {
    ValidMobileShape(s);
  }

  /** The keystroke filter never blocks a valid number: every prefix of one,
      typed a character at a time, is accepted. */
  lemma ValidMobileCanBeTyped(m: string, k: nat)
    requires IsValidMobile(m) && k <= |m|
    ensures KeystrokeAccepted(m[..k])
  {
    ValidMobileShape(m);
  }

  /** Whatever the filter accepts is at most ten digits, so a valid number is
      exactly an accepted value of full length starting with 6 to 9. */
  lemma AcceptedValueIsValidWhenComplete(v: string)
    requires KeystrokeAccepted(v)
    ensures IsValidMobile(v) <==> |v| == MaxMobileLength && '6' <= v[0] <= '9'
  {
    ValidMobileShape(v);
  }
}
