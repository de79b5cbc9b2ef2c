/** The numeric text the form accepts while typing, the `parseFloat(x) || 0`
    reading of it, and the decimal rendering of integers. */
module Decimal {
  import opened Wrappers

  predicate IsDigit(c: char) {
    '0' <= c <= '9'
  }

  predicate AllDigits(s: string) {
    forall i :: 0 <= i < |s| ==> IsDigit(s[i])
  }

  /** The regular expression `^\d*\.?\d*$` as its two-state automaton:
      `seenDot` records whether the one optional dot has been consumed. */
  predicate MatchesFrom(s: string, seenDot: bool) {
    if s == [] then true
    else if IsDigit(s[0]) then MatchesFrom(s[1..], seenDot)
    else if s[0] == '.' && !seenDot then MatchesFrom(s[1..], true)
    else false
  }

  /** `/^\d*\.?\d*$/.test(s)`: digits, at most one dot, digits. */
  predicate IsPartialDecimal(s: string): (b: bool)
    ensures b <==> AllDigits(WholePart(s)) && AllDigits(FractionPart(s))
  {
    MatchesAroundDot(s);
    MatchesFrom(s, false)
  }

  /** Position of the first dot, or |s| when there is none. */
  function DotIndex(s: string): (i: nat)
    ensures i <= |s|
    ensures i < |s| ==> s[i] == '.'
    ensures forall j :: 0 <= j < i ==> s[j] != '.'
  {
    if s == [] then 0
    else if s[0] == '.' then 0
    else 1 + DotIndex(s[1..])
  }

  /** Digits before the dot. */
  function WholePart(s: string): string {
    s[..DotIndex(s)]
  }

  /** Digits after the dot ("" when there is no dot). */
  function FractionPart(s: string): string {
    var i := DotIndex(s);
    if i < |s| then s[i + 1..] else ""
  }

  lemma {:induction false} MatchesAfterDot(s: string)
    requires MatchesFrom(s, true)
    ensures AllDigits(s)
  {
    if s != [] {
      MatchesAfterDot(s[1..]);
    }
  }

  lemma {:induction false} DigitsMatch(s: string, seenDot: bool)
    requires AllDigits(s)
    ensures MatchesFrom(s, seenDot)
  {
    if s != [] {
      DigitsMatch(s[1..], seenDot);
    }
  }

  /** The automaton accepts from its start state exactly when both runs
      around the first dot are digits. */
  lemma {:induction false} MatchesAroundDot(s: string)
    ensures MatchesFrom(s, false) <==> AllDigits(WholePart(s)) && AllDigits(FractionPart(s))
  {
    if s == [] {
    } else if s[0] == '.' {
      if MatchesFrom(s[1..], true) {
        MatchesAfterDot(s[1..]);
      }
      if AllDigits(s[1..]) {
        DigitsMatch(s[1..], true);
      }
    } else {
      MatchesAroundDot(s[1..]);
      assert WholePart(s) == [s[0]] + WholePart(s[1..]);
      assert FractionPart(s) == FractionPart(s[1..]);
      if !IsDigit(s[0]) {
        assert WholePart(s)[0] == s[0];
      }
    }
  }

  /** Every string is its part before the first dot, then the dot and the
      rest when there is one. */
  lemma {:induction false} DotSplit(s: string)
    ensures s == WholePart(s) + (if DotIndex(s) < |s| then "." + FractionPart(s) else "")
  {
    if DotIndex(s) < |s| {
      SplitAt(s, DotIndex(s));
    } else {
      NoDot(s);
    }
  }

  lemma {:induction false} SplitAt(s: string, i: nat)
    requires i < |s| && s[i] == '.'
    ensures s == s[..i] + "." + s[i + 1..]
  {
    assert s == s[..i] + [s[i]] + s[i + 1..];
  }

  lemma {:induction false} NoDot(s: string)
    requires DotIndex(s) == |s|
    ensures s == WholePart(s) + ""
  {
    assert s[..|s|] == s;
  }

  /** The pattern accepts exactly the strings made of a run of digits,
      optionally followed by one dot and a second run of digits. */
  lemma {:induction false} PartialDecimalShape(s: string)
    ensures IsPartialDecimal(s) <==>
      && AllDigits(WholePart(s))
      && AllDigits(FractionPart(s))
      && s == WholePart(s) + (if DotIndex(s) < |s| then "." + FractionPart(s) else "")
  {
    MatchesAroundDot(s);
    DotSplit(s);
  }

  /** Value of a run of decimal digits. */
  function DigitsValue(s: string): (v: nat)
    requires AllDigits(s)
  {
    if s == [] then 0
    else 10 * DigitsValue(s[..|s| - 1]) + (s[|s| - 1] as int - '0' as int)
  }

  function Pow10(n: nat): (p: nat)
    ensures p >= 1
  {
    if n == 0 then 1 else 10 * Pow10(n - 1)
  }

  /** `parseFloat(s)` on text the pattern accepts: None stands for NaN, which
      it returns when there is no digit at all ("" or "."). */
  function ParseFloat(s: string): (r: Option<real>)
    requires IsPartialDecimal(s)
    ensures r.None? <==> WholePart(s) == [] && FractionPart(s) == []
    ensures r.Some? ==> r.value >= 0.0
  {
    var whole, frac := WholePart(s), FractionPart(s);
    if whole == [] && frac == [] then None
    else Some(DigitsValue(whole) as real + FractionValue(frac))
  }

  /** Value of the digits after the dot: `0.frac`. */
  function FractionValue(frac: string): (v: real)
    requires AllDigits(frac)
    ensures 0.0 <= v < 1.0
    ensures v * Pow10(|frac|) as real == DigitsValue(frac) as real
  {
    DigitsBelowPow10(frac);
    Quotient(DigitsValue(frac) as real, Pow10(|frac|) as real);
    DigitsValue(frac) as real / Pow10(|frac|) as real
  }

  lemma {:induction false} Quotient(n: real, d: real)
    requires 0.0 <= n < d
    ensures 0.0 <= n / d < 1.0
    ensures n / d * d == n
  {
  }

  /** k digits stand for less than 10^k. */
  lemma {:induction false} DigitsBelowPow10(s: string)
    requires AllDigits(s)
    ensures DigitsValue(s) < Pow10(|s|)
  {
    if s != [] {
      DigitsBelowPow10(s[..|s| - 1]);
    }
  }

  /** `parseFloat(s) || 0`: NaN becomes 0 (a parsed 0 is falsy too, and stays 0). */
  function ParseAmount(s: string): (v: real)
    requires IsPartialDecimal(s)
    ensures v >= 0.0
    ensures ParseFloat(s).None? ==> v == 0.0
    ensures ParseFloat(s).Some? ==> v == ParseFloat(s).value
  {
    ParseFloat(s).GetOr(0.0)
  }

  /** What `parseFloat` reads: the digits before the dot are the whole part
      of the number, and what is left over is the fraction written after the
      dot, the one number in [0, 1) that 10^k turns into those k digits'
      value (`FractionValue`'s contract). */
  lemma {:induction false} ParseFloatValue(s: string)
    requires IsPartialDecimal(s)
    requires ParseFloat(s).Some?
    ensures AllDigits(WholePart(s)) && AllDigits(FractionPart(s))
    ensures ParseFloat(s).value.Floor == DigitsValue(WholePart(s))
    ensures ParseFloat(s).value - DigitsValue(WholePart(s)) as real == FractionValue(FractionPart(s))
  {
    var x, f := DigitsValue(WholePart(s)), FractionValue(FractionPart(s));
    assert ParseFloat(s).value == x as real + f;
    FloorOfFraction(ParseFloat(s).value, x, f);
  }

  lemma {:induction false} FloorOfFraction(v: real, x: nat, f: real)
    requires v == x as real + f && 0.0 <= f < 1.0
    ensures v.Floor == x
  {
  }

  function DigitChar(d: nat): (c: char)
    requires d < 10
    ensures IsDigit(c) && c as int - '0' as int == d
  {
    (d + '0' as int) as char
  }

  /** `String(n)` for a natural number below 10^21: its shortest decimal digits. */
  function NatToString(n: nat): (s: string)
    ensures |s| > 0 && AllDigits(s)
    ensures DigitsValue(s) == n
    ensures s[0] == '0' ==> n == 0
    ensures |s| > 1 ==> s[0] != '0'
  {
    if n < 10 then [DigitChar(n)]
    else
      var s := NatToString(n / 10) + [DigitChar(n % 10)];
      assert s[..|s| - 1] == NatToString(n / 10);
      s
  }

  /** `String(n)` for an integer below 10^21 in magnitude: a minus sign
      before the digits of a negative. */
  function IntToString(n: int): (s: string)
    ensures |s| > 0
    ensures forall i :: 0 <= i < |s| ==> IsDigit(s[i]) || s[i] == '-'
    ensures (s[0] == '-') <==> n < 0
    ensures n >= 0 ==> AllDigits(s) && DigitsValue(s) == n
    ensures n < 0 ==> AllDigits(s[1..]) && DigitsValue(s[1..]) == -n
  {
    if n < 0 then "-" + NatToString(-n) else NatToString(n)
  }

  /** `String(n)` for 0 <= n < 10 is its one digit. */
  lemma {:induction false} OneDigitString(n: int)
    requires 0 <= n < 10
    ensures IntToString(n) == [DigitChar(n)]
  {
  }

  /** `String(n)` for 10 <= n < 100 is its two digits. */
  lemma {:induction false} TwoDigitString(n: int)
    requires 10 <= n < 100
    ensures IntToString(n) == [DigitChar(n / 10), DigitChar(n % 10)]
  {
    OneDigitString(n / 10);
  }

  /** Reading back the digits of a natural number gives that number. */
  lemma {:induction false} NatToStringParses(n: nat)
    ensures IsPartialDecimal(NatToString(n))
    ensures ParseAmount(NatToString(n)) == n as real
  {
    var s := NatToString(n);
    DigitsMatch(s, false);
    assert DotIndex(s) == |s|;
    assert WholePart(s) == s;
  }

  lemma {:induction false} PatternExamples()
    ensures !IsPartialDecimal("12.3.4")
    ensures !IsPartialDecimal("1a")
    ensures IsPartialDecimal("12.") && IsPartialDecimal(".5") && IsPartialDecimal("")
    ensures IsPartialDecimal(".")
  {
  }

  lemma {:induction false} ParseExamples()
    ensures ParseAmount("") == 0.0
    ensures ParseAmount(".") == 0.0
    ensures ParseAmount("12.") == 12.0
    ensures ParseAmount(".5") == 0.5
    ensures ParseAmount("10") == 10.0
  {
    assert WholePart("12.") == "12";
    assert FractionPart(".5") == "5";
    assert WholePart("10") == "10";
  }
}
