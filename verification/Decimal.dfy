/** Decimal numerals as printf writes them for %d, and what reading them back gives. */
module Decimal {

  predicate IsDigit(c: char) {
    '0' <= c <= '9'
  }

  function DigitChar(d: nat): (c: char)
    requires d < 10
    ensures IsDigit(c) && DigitValue(c) == d
  {
    '0' + d as char
  }

  function DigitValue(c: char): nat {
    if IsDigit(c) then (c - '0') as nat else 0
  }

  predicate AllDigits(s: string) {
    forall i :: 0 <= i < |s| ==> IsDigit(s[i])
  }

  function Value(s: string): nat {
    if s == [] then 0 else 10 * Value(s[..|s| - 1]) + DigitValue(s[|s| - 1])
  }

  /** How many digits a string starts with. */
  function DigitRun(s: string): (n: nat)
    ensures n <= |s|
  {
    if s == [] || !IsDigit(s[0]) then 0 else 1 + DigitRun(s[1..])
  }

  lemma {:induction false} RunIsAll(s: string)
    ensures DigitRun(s) == |s| <==> AllDigits(s)
    ensures s[..|s|] == s
  {
    if s != [] {
      RunIsAll(s[1..]);
      assert AllDigits(s) <==> IsDigit(s[0]) && AllDigits(s[1..]) by {
        assert s == [s[0]] + s[1..];
      }
    }
  }

  /** A natural number without leading zeros. */
  function Natural(n: nat): (s: string)
    ensures AllDigits(s) && s != [] && Value(s) == n
  {
    if n < 10 then
      var s := [DigitChar(n)];
      assert s[..0] == [];
      s
    else
      var s := Natural(n / 10) + [DigitChar(n % 10)];
      assert s[..|s| - 1] == Natural(n / 10);
      s
  }

  function Power10(n: nat): (p: nat)
    ensures p > 0
  {
    if n == 0 then 1 else 10 * Power10(n - 1)
  }

  /** Numbers below 10^k have at most k digits. */
  lemma {:induction false} NaturalLength(n: nat, k: nat)
    requires k > 0 && n < Power10(k)
    ensures |Natural(n)| <= k
  {
    if n >= 10 {
      assert k > 1;
      NaturalLength(n / 10, k - 1);
    }
  }

  lemma {:induction false} PowersOf10()
    ensures Power10(15) == 1_000_000_000_000_000
  {
    assert Power10(5) == 100_000;
    assert Power10(10) == 10_000_000_000;
  }

  /** %d. */
  function Signed(n: int): string {
    if n < 0 then "-" + Natural(-n) else Natural(n)
  }
}
