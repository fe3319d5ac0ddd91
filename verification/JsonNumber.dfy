/** Numbers as section 6 of RFC 8259 writes them, and the exact values they parse to. */
module JsonNumber {
  import opened Basics
  import opened Decimal
  import opened JsonText
  import JsonRoundTrip

  /** The exponent part: its letter, an optional sign and its digits. */
  datatype Power = Power(letter: char, sign: string, digits: string)

  /** A numeral; an empty fraction stands for none. */
  datatype Numeral = Numeral(negative: bool, whole: string, fraction: string, power: Option<Power>)

  predicate Digits(s: string) {
    s != [] && AllDigits(s)
  }

  predicate GoodPower(p: Power) {
    (p.letter == 'e' || p.letter == 'E') && (p.sign == "" || p.sign == "+" || p.sign == "-") && Digits(p.digits)
  }

  /** Section 6, and no longer than the buffer the code copies numbers to. */
  predicate GoodNumeral(n: Numeral) {
    && Digits(n.whole) && (n.fraction == "" || Digits(n.fraction)) && (n.power.Some? ==> GoodPower(n.power.value))
    && |Spelled(n)| <= 63
  }

  function FractionPart(fraction: string): string {
    if fraction == "" then "" else "." + fraction
  }

  function PowerPart(power: Option<Power>): string {
    match power
    case None => ""
    case Some(p) => [p.letter] + (p.sign + p.digits)
  }

  function Magnitude(n: Numeral): string {
    n.whole + (FractionPart(n.fraction) + PowerPart(n.power))
  }

  function Spelled(n: Numeral): string {
    if n.negative then "-" + Magnitude(n) else Magnitude(n)
  }

  // ---------- what a numeral denotes ----------

  /** `x` times ten to the power `e`. */
  function Shift(x: real, e: int): real
    decreases if e < 0 then -e else e
  {
    if e == 0 then x else if e > 0 then 10.0 * Shift(x, e - 1) else Shift(x, e + 1) / 10.0
  }

  function PowerOf(power: Option<Power>): int {
    match power
    case None => 0
    case Some(p) => if p.sign == "-" then -(Value(p.digits) as int) else Value(p.digits)
  }

  /** All its digits as one number, times ten to the exponent less the digits of the fraction. */
  function Absolute(n: Numeral): real {
    Shift(Value(n.whole + n.fraction) as real, PowerOf(n.power) - |n.fraction|)
  }

  function Denoted(n: Numeral): real {
    if n.negative then -Absolute(n) else Absolute(n)
  }

  // ---------- arithmetic ----------

  lemma {:induction false} ShiftInside(x: real, e: int)
    ensures Shift(10.0 * x, e) == 10.0 * Shift(x, e) == Shift(x, e + 1)
    decreases if e < 0 then -e else e
  {
    if e > 0 {
      ShiftInside(x, e - 1);
    } else if e < 0 {
      ShiftInside(x, e + 1);
    }
  }

  /** Scaling from the inside or from the outside is the same. */
  lemma {:induction false} ScaledIs(x: real, e: int)
    ensures Scaled(x, e) == Shift(x, e)
    decreases if e < 0 then -e else e
  {
    if e > 0 {
      ScaledIs(10.0 * x, e - 1);
      ShiftInside(x, e - 1);
    } else if e < 0 {
      ScaledIs(x / 10.0, e + 1);
      ShiftInside(x / 10.0, e);
    }
  }

  lemma {:induction false} ShiftSum(x: real, y: real, e: int)
    ensures Shift(x + y, e) == Shift(x, e) + Shift(y, e)
    decreases if e < 0 then -e else e
  {
    if e > 0 {
      ShiftSum(x, y, e - 1);
    } else if e < 0 {
      ShiftSum(x, y, e + 1);
    }
  }

  /** Putting digits `b` behind digits `a` shifts the number that `a` denotes by as many places. */
  lemma {:induction false} ValueOfBoth(a: string, b: string, e: int)
    ensures Shift(Value(a + b) as real, e) == Shift(Value(a) as real, e + |b|) + Shift(Value(b) as real, e)
    decreases |b|
  {
    if b == [] {
      EmptyEnds(a);
      ShiftSum(Value(a) as real, 0.0, e);
    } else {
      var last := |b| - 1;
      var d := DigitValue(b[last]) as real;
      ValueOfBoth(a, b[..last], e + 1);
      assert (a + b)[..|a| + last] == a + b[..last] && (a + b)[|a + b| - 1] == b[last];
      ShiftInside(Value(a + b[..last]) as real, e);
      ShiftInside(Value(b[..last]) as real, e);
      ShiftSum(10.0 * Value(a + b[..last]) as real, d, e);
      ShiftSum(10.0 * Value(b[..last]) as real, d, e);
    }
  }

  // ---------- strtod ----------

  lemma {:induction false} RunStops(digits: string, rest: string)
    requires AllDigits(digits) && (rest == [] || !IsDigit(rest[0]))
    ensures DigitRun(digits + rest) == |digits|
    ensures (digits + rest)[..|digits|] == digits && (digits + rest)[|digits|..] == rest
  {
    if digits == [] {
      EmptyEnds(rest);
    } else {
      assert (digits + rest)[1..] == digits[1..] + rest;
      RunStops(digits[1..], rest);
    }
  }

  lemma {:induction false} SignOf(sign: string, digits: string)
    requires Digits(digits) && (sign == "" || sign == "+" || sign == "-")
    ensures var tail := sign + digits;
      SignLength(tail) == |sign| && tail[|sign|..] == digits && tail != [] && (tail[0] == '-' <==> sign == "-")
  {
  }

  lemma {:induction false} PowerIsRead(power: Option<Power>)
    requires power.Some? ==> GoodPower(power.value)
    ensures Exponent(PowerPart(power)) == (PowerOf(power), |PowerPart(power)|)
    ensures PowerPart(power) == "" || (!IsDigit(PowerPart(power)[0]) && PowerPart(power)[0] != '.')
  {
    if power.Some? {
      var p := power.value;
      var s, tail := PowerPart(power), p.sign + p.digits;
      TailOfCons(p.letter, tail);
      SignOf(p.sign, p.digits);
      RunIsAll(p.digits);
      TailOfTail(s, 1, |p.sign|);
    }
  }

  lemma {:induction false} FractionIsRead(fraction: string, rest: string)
    requires (fraction == "" || Digits(fraction)) && (rest == [] || (!IsDigit(rest[0]) && rest[0] != '.'))
    ensures var s := FractionPart(fraction) + rest;
      FractionLength(s) == |FractionPart(fraction)| && (fraction == "" ==> s == rest)
      && (fraction != "" ==> s[1..][..|fraction|] == fraction) && s[|FractionPart(fraction)|..] == rest
  {
    var s := FractionPart(fraction) + rest;
    if fraction == "" {
      EmptyEnds(rest);
    } else {
      assert s[1..] == fraction + rest;
      RunStops(fraction, rest);
      assert s[|fraction| + 1..] == rest;
    }
  }

  /** strtod on its parts: digits, fraction and exponent. */
  lemma {:induction false} UnsignedIs(u: string, i: nat, f: nat, e: int, x: nat, m: real)
    requires i > 0 && i == DigitRun(u) && f == FractionLength(u[i..]) && Exponent(u[i + f..]) == (e, x)
    requires Mantissa(u, i, f, e) == m
    ensures Unsigned(u) == (m, i + f + x)
  {
  }

  lemma {:induction false} MantissaIs(u: string, whole: string, fraction: string, e: int)
    requires |whole| == DigitRun(u) && |FractionPart(fraction)| == FractionLength(u[|whole|..])
    requires u[..|whole|] == whole && (fraction != "" ==> u[|whole|..][1..][..|fraction|] == fraction)
    ensures Mantissa(u, |whole|, |FractionPart(fraction)|, e)
         == Shift(Value(whole + fraction) as real, e - |fraction|)
  {
    PartsAddUp(whole, fraction, e);
  }

  ghost predicate Found(u: string, whole: string, fraction: string, tail: string) {
    var i, f := |whole|, |FractionPart(fraction)|;
    && |u| == i + f + |tail| && i == DigitRun(u) && u[..i] == whole && f == FractionLength(u[i..])
    && (fraction != "" ==> u[i..][1..][..|fraction|] == fraction) && u[i + f..] == tail
  }

  lemma {:induction false} PartsAreFound(whole: string, fraction: string, tail: string)
    requires Digits(whole) && (fraction == "" || Digits(fraction))
    requires tail == "" || (!IsDigit(tail[0]) && tail[0] != '.')
    ensures Found(whole + (FractionPart(fraction) + tail), whole, fraction, tail)
  {
    FractionIsRead(fraction, tail);
    RunStops(whole, FractionPart(fraction) + tail);
    TailOfTail(whole + (FractionPart(fraction) + tail), |whole|, |FractionPart(fraction)|);
  }

  lemma {:induction false} FoundIsRead(u: string, whole: string, fraction: string, tail: string, e: int, m: real)
    requires whole != "" && Found(u, whole, fraction, tail) && Exponent(tail) == (e, |tail|)
    requires Mantissa(u, |whole|, |FractionPart(fraction)|, e) == m
    ensures Unsigned(u) == (m, |u|)
  {
    UnsignedIs(u, |whole|, |FractionPart(fraction)|, e, |tail|, m);
  }

  lemma {:induction false} PartsAreRead(whole: string, fraction: string, tail: string, e: int)
    requires Digits(whole) && (fraction == "" || Digits(fraction)) && Exponent(tail) == (e, |tail|)
    requires tail == "" || (!IsDigit(tail[0]) && tail[0] != '.')
    ensures var u := whole + (FractionPart(fraction) + tail);
      Unsigned(u) == (Shift(Value(whole + fraction) as real, e - |fraction|), |u|)
  {
    var u, m := whole + (FractionPart(fraction) + tail), Shift(Value(whole + fraction) as real, e - |fraction|);
    PartsAreFound(whole, fraction, tail);
    MantissaIs(u, whole, fraction, e);
    FoundIsRead(u, whole, fraction, tail, e, m);
  }

  lemma {:induction false} MagnitudeIsRead(n: Numeral)
    requires GoodNumeral(n)
    ensures Unsigned(Magnitude(n)) == (Absolute(n), |Magnitude(n)|)
  {
    PowerIsRead(n.power);
    PartsAreRead(n.whole, n.fraction, PowerPart(n.power), PowerOf(n.power));
  }

  lemma {:induction false} PartsAddUp(whole: string, fraction: string, e: int)
    ensures Shift(Value(whole + fraction) as real, e - |fraction|) ==
      if fraction == "" then Scaled(Value(whole) as real, e)
      else Scaled(Value(whole) as real, e) + Scaled(Value(fraction) as real, e - |fraction|)
  {
    ScaledIs(Value(whole) as real, e);
    ScaledIs(Value(fraction) as real, e - |fraction|);
    ValueOfBoth(whole, fraction, e - |fraction|);
    if fraction == "" {
      EmptyEnds(whole);
    }
  }

  // ---------- parse_number ----------

  predicate NumberChars(s: string) {
    forall i :: 0 <= i < |s| ==> IsNumberChar(s[i])
  }

  lemma {:induction false} PartsAreNumberChars(n: Numeral)
    requires GoodNumeral(n)
    ensures NumberChars(n.whole) && NumberChars(FractionPart(n.fraction)) && NumberChars(PowerPart(n.power))
  {
  }

  lemma {:induction false} SpelledInNumberChars(n: Numeral)
    requires GoodNumeral(n)
    ensures NumberChars(Spelled(n))
  {
    PartsAreNumberChars(n);
  }

  lemma {:induction false} SpelledBySign(n: Numeral)
    requires GoodNumeral(n)
    ensures var s, u := Spelled(n), Magnitude(n);
      && u != [] && IsDigit(u[0]) && s == (if n.negative then "-" + u else u) && (s == u <==> !n.negative)
  {
    assert Magnitude(n)[0] == n.whole[0];
  }

  lemma {:induction false} ParsedPrefix(s: string, rest: string, value: real)
    requires Terminated(rest) && Terminated(s + rest) && NumberRun(s + rest, 63) == |s| && Strtod(s) == (value, |s|)
    requires s != []
    ensures ParseNumber(s + rest) == Some((value, rest))
  {
    assert (s + rest)[..|s|] == s && (s + rest)[|s|..] == rest;
  }

  /** Every numeral that fits the buffer is read as the number it denotes. */
  lemma {:induction false} NumeralIsRead(n: Numeral, rest: string)
    requires GoodNumeral(n) && Terminated(rest) && !IsNumberChar(rest[0])
    ensures Terminated(Spelled(n) + rest) && ParseNumber(Spelled(n) + rest) == Some((Denoted(n), rest))
  {
    var s, u := Spelled(n), Magnitude(n);
    SpelledInNumberChars(n);
    JsonRoundTrip.RunOfNumeral(s, rest, 63);
    MagnitudeIsRead(n);
    SpelledBySign(n);
    JsonRoundTrip.SignApplied(s, u, Absolute(n));
    JsonRoundTrip.Appended(s, rest);
    ParsedPrefix(s, rest, Denoted(n));
  }
}
