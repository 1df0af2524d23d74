/**
 * Decimal rendering of integers, as a JavaScript template literal `${n}`
 * renders an integral number. Level titles ("Orador Nv. 12") and the
 * custom-event message ("+150 XP") are built with it.
 */
module Text {

  /** The decimal digit character for 0 <= d < 10. */
  function DigitChar(d: int): (c: char)
    requires 0 <= d < 10
    ensures '0' <= c <= '9' && c as int - '0' as int == d
  {
    (d + '0' as int) as char
  }

  predicate IsDigit(c: char) {
    '0' <= c <= '9'
  }

  /** Shortest decimal form of a natural number: no leading zero, at least one digit. */
  function NatToString(n: nat): (s: string)
    decreases n
  {
    if n < 10 then [DigitChar(n)] else NatToString(n / 10) + [DigitChar(n % 10)]
  }

  /** `${n}` for an integral number: a minus sign, then the digits of |n|. */
  function IntToString(n: int): (s: string)
  {
    if n < 0 then "-" + NatToString(-n) else NatToString(n)
  }

  /** The value of a non-empty string of decimal digits. */
  function ParseNat(s: string): nat
    requires |s| > 0 && forall i :: 0 <= i < |s| ==> IsDigit(s[i])
    decreases |s|
  {
    assert IsDigit(s[|s| - 1]);
    var d := s[|s| - 1] as int - '0' as int;
    if |s| == 1 then d else 10 * ParseNat(s[..|s| - 1]) + d
  }

  /** Rendering is a faithful decimal notation: digits only, no leading zero, and it parses back. */
  lemma {:induction false} NatToStringRoundTrip(n: nat)
    ensures var s := NatToString(n);
      && |s| > 0
      && (forall i :: 0 <= i < |s| ==> IsDigit(s[i]))
      && (|s| > 1 ==> s[0] != '0')
      && ParseNat(s) == n
    decreases n
  {
    if n >= 10 {
      NatToStringRoundTrip(n / 10);
      var p := NatToString(n / 10);
      var s := NatToString(n);
      assert s == p + [DigitChar(n % 10)];
      assert s[..|s| - 1] == p;
      assert s[0] == p[0];
    }
  }

  /** Distinct numbers render differently, so a level number can be read back off a title. */
  lemma NatToStringInjective(m: nat, n: nat)
    requires NatToString(m) == NatToString(n)
    ensures m == n
  {
    NatToStringRoundTrip(m);
    NatToStringRoundTrip(n);
  }
}
