/** Integers rendered in decimal the way Python's `str` renders them, and the
    "@<epoch seconds>" argument that both `date -s` and faketime accept. */
module Decimal {
  import opened Wrappers

  predicate IsDigit(c: char) {
    '0' <= c <= '9'
  }

  predicate AllDigits(s: string) {
    forall i :: 0 <= i < |s| ==> IsDigit(s[i])
  }

  function DigitChar(d: nat): (c: char)
    requires d < 10
    ensures IsDigit(c)
  {
    (d + '0' as int) as char
  }

  function DigitValue(c: char): (d: nat)
    requires IsDigit(c)
    ensures d < 10
  {
    c as int - '0' as int
  }

  /** The decimal digits of `n`, most significant first. */
  function NatToString(n: nat): (s: string)
    ensures |s| > 0 && AllDigits(s)
    ensures s[0] == '0' ==> n == 0
  {
    if n < 10 then [DigitChar(n)] else NatToString(n / 10) + [DigitChar(n % 10)]
  }

  /** Reads a non-empty run of decimal digits. */
  function ParseNat(s: string): nat
    requires |s| > 0 && AllDigits(s)
  {
    if |s| == 1 then DigitValue(s[0])
    else 10 * ParseNat(s[..|s| - 1]) + DigitValue(s[|s| - 1])
  }

  lemma {:induction false} ParseNatToString(n: nat)
    ensures ParseNat(NatToString(n)) == n
  {
    if n >= 10 {
      var s := NatToString(n / 10);
      var t := s + [DigitChar(n % 10)];
      assert t[..|t| - 1] == s;
      ParseNatToString(n / 10);
    }
  }

  /** Python's `str` of an integer: a minus sign for negatives, no leading zeros. */
  function IntToString(n: int): string
  {
    if n < 0 then "-" + NatToString(-n) else NatToString(n)
  }

  /** Reads what IntToString writes. */
  function ParseInt(s: string): Option<int>
  {
    if |s| > 0 && AllDigits(s) then Some(ParseNat(s))
    else if |s| > 1 && s[0] == '-' && AllDigits(s[1..]) then Some(-(ParseNat(s[1..]) as int))
    else None
  }

  lemma IntToStringRoundTrip(n: int)
    ensures ParseInt(IntToString(n)) == Some(n)
  {
    if n < 0 {
      var s := "-" + NatToString(-n);
      assert s[1..] == NatToString(-n);
      assert !IsDigit(s[0]);
      ParseNatToString(-n);
    } else {
      ParseNatToString(n);
    }
  }

  /** The `@<seconds>` form: f"@{int(t.timestamp())}" in DCTimer.py. */
  function AtEpoch(seconds: int): string
  {
    "@" + IntToString(seconds)
  }

  /** A reader of the `@<seconds>` form that AtEpoch writes: an optional minus
      sign and decimal digits. GNU date also accepts forms this rejects, such as
      `@+5` or `@1.5`. */
  function ParseAtEpoch(s: string): Option<int>
  {
    if |s| > 0 && s[0] == '@' then ParseInt(s[1..]) else None
  }

  /** The `@` argument carries exactly the seconds it was built from, so two
      different instants never produce the same argument. */
  lemma AtEpochRoundTrip(seconds: int)
    ensures ParseAtEpoch(AtEpoch(seconds)) == Some(seconds)
    ensures forall other: int :: AtEpoch(other) == AtEpoch(seconds) ==> other == seconds
  {
    var s := AtEpoch(seconds);
    assert s[1..] == IntToString(seconds);
    IntToStringRoundTrip(seconds);
    forall other: int | AtEpoch(other) == AtEpoch(seconds)
      ensures other == seconds
    {
      var o := AtEpoch(other);
      assert o[1..] == IntToString(other);
      IntToStringRoundTrip(other);
    }
  }
}
