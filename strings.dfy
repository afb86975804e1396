/**
 * Decimal rendering of natural numbers, as `str(k)` writes them, and the
 * player names "Player k" built from it.
 */
module Strings {
  /** The decimal digit character of `d`. */
  function DigitChar(d: nat): (c: char)
    requires d < 10
    ensures '0' <= c <= '9'
  {
    "0123456789"[d]
  }

  /** `str(n)` for a natural number: its decimal digits, most significant first. */
  function NatToString(n: nat): (s: string)
    ensures |s| >= 1 && forall i :: 0 <= i < |s| ==> '0' <= s[i] <= '9'
  {
    if n < 10 then [DigitChar(n)] else NatToString(n / 10) + [DigitChar(n % 10)]
  }

  lemma DigitCharInjective(a: nat, b: nat)
    requires a < 10 && b < 10 && DigitChar(a) == DigitChar(b)
    ensures a == b
  {
  }

  /** Different numbers are written differently. */
  lemma {:induction false} NatToStringInjective(a: nat, b: nat)
    requires NatToString(a) == NatToString(b)
    ensures a == b
    decreases a
  {
    var s := NatToString(a);
    if a < 10 && b < 10 {
      DigitCharInjective(a, b);
    } else if a < 10 || b < 10 {
      assert false;
    } else {
      var pa, pb := NatToString(a / 10), NatToString(b / 10);
      assert s == pa + [DigitChar(a % 10)] && s == pb + [DigitChar(b % 10)];
      assert s[|s| - 1] == DigitChar(a % 10) == DigitChar(b % 10);
      DigitCharInjective(a % 10, b % 10);
      assert pa == s[..|s| - 1] == pb;
      NatToStringInjective(a / 10, b / 10);
    }
  }

  /** The name the library gives its `k`-th generated player. */
  function PlayerName(k: nat): (s: string)
    ensures |s| > 7 && s[..7] == "Player " && s[7..] == NatToString(k)
  {
    "Player " + NatToString(k)
  }

  /** Generated names of different players are different. */
  lemma PlayerNameInjective(a: nat, b: nat)
    requires PlayerName(a) == PlayerName(b)
    ensures a == b
  {
    assert PlayerName(a)[7..] == PlayerName(b)[7..];
    NatToStringInjective(a, b);
  }
}
