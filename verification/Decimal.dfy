/** Decimal texts summed in ten-thousandths. */
module Decimal {
  import opened Text

  // ---------------------------------------------------------------------
  // Texts
  // ---------------------------------------------------------------------

  predicate AllDigits(s: string) { forall i :: 0 <= i < |s| ==> IsDigit(s[i]) }

  /** The number that digits spell. */
  function Value(s: string): nat
    requires AllDigits(s)
  {
    if s == "" then 0 else Value(s[..|s| - 1]) * 10 + (s[|s| - 1] as int - '0' as int)
  }

  function TrimEnd(s: string): string {
    if s != "" && IsSpace(s[|s| - 1]) then TrimEnd(s[..|s| - 1]) else s
  }

  function Trim(s: string): string { TrimEnd(s[SpaceRun(s)..]) }

  /** A decimal: an optional minus, digits, and up to four digits after a point. */
  datatype Dec = Dec(negative: bool, whole: string, frac: string)

  predicate IsDec(d: Dec) {
    d.whole != "" && AllDigits(d.whole) && |d.frac| <= 4 && AllDigits(d.frac)
  }

  function Spell(d: Dec): string {
    (if d.negative then "-" else "") + Unsigned(d)
  }

  /** Length of the longest prefix made of digits. */
  function DigitRun(s: string): (n: nat)
    ensures n <= |s|
    ensures forall i :: 0 <= i < n ==> IsDigit(s[i])
    ensures n < |s| ==> !IsDigit(s[n])
  {
    if s == "" || !IsDigit(s[0]) then 0 else 1 + DigitRun(s[1..])
  }

  datatype Parsed = NotDecimal | Decimal(dec: Dec)

  function ParseUnsigned(negative: bool, s: string): Parsed {
    var n := DigitRun(s);
    if n == 0 then NotDecimal
    else if n == |s| then Decimal(Dec(negative, s, ""))
    else
      var frac := s[n + 1..];
      if s[n] == '.' && 1 <= |frac| <= 4 && DigitRun(frac) == |frac| then Decimal(Dec(negative, s[..n], frac))
      else NotDecimal
  }

  /** What the pattern matches, after trimming. */
  function Match(value: string): Parsed {
    var s := Trim(value);
    if s != "" && s[0] == '-' then ParseUnsigned(true, s[1..]) else ParseUnsigned(false, s)
  }

  // ---------------------------------------------------------------------
  // Ten-thousandths
  // ---------------------------------------------------------------------

  function Pow10(n: nat): nat { if n == 0 then 1 else 10 * Pow10(n - 1) }

  /** The fraction in ten-thousandths. */
  function FracValue(frac: string): nat
    requires |frac| <= 4 && AllDigits(frac)
  {
    Value(frac) * Pow10(4 - |frac|)
  }

  /** What the text means. */
  function Exact(d: Dec): int
    requires IsDec(d)
  {
    var abs := Value(d.whole) * 10000 + FracValue(d.frac);
    if d.negative then -abs else abs
  }

  /** What the sum takes it for: the sign is read off the integer part alone. */
  function Scaled(d: Dec): int
    requires IsDec(d)
  {
    var digits: int := Value(d.whole);
    var whole := if d.negative then -digits else digits;
    var frac: int := FracValue(d.frac);
    whole * 10000 + if whole < 0 then -frac else frac
  }

  /** The sign is lost: negative, with a zero integer part and a fraction. */
  predicate SignLost(d: Dec)
    requires IsDec(d)
  {
    d.negative && Value(d.whole) == 0 && FracValue(d.frac) != 0
  }

  lemma ScaledExactIff(d: Dec)
    requires IsDec(d)
    ensures Scaled(d) == Exact(d) <==> !SignLost(d)
    ensures Scaled(d) >= Exact(d)
  {
  }

  function Unsigned(d: Dec): string { d.whole + if d.frac == "" then "" else "." + d.frac }

  lemma ParseSound(negative: bool, s: string)
    requires ParseUnsigned(negative, s).Decimal?
    ensures var d := ParseUnsigned(negative, s).dec; IsDec(d) && d.negative == negative && Unsigned(d) == s
  {
    var n := DigitRun(s);
    if n < |s| {
      assert s == s[..n] + "." + s[n + 1..];
    }
  }

  /** The parser returns decimals, and only of the texts they print. */
  lemma MatchSound(value: string)
    requires Match(value).Decimal?
    ensures var d := Match(value).dec; IsDec(d) && Spell(d) == Trim(value)
  {
    hide ParseUnsigned, Trim;
    var s := Trim(value);
    if s != "" && s[0] == '-' {
      ParseSound(true, s[1..]);
      assert "-" + s[1..] == s;
    } else {
      ParseSound(false, s);
    }
  }

  lemma {:induction false} DigitRunAll(s: string, rest: string)
    requires AllDigits(s) && (rest != "" ==> !IsDigit(rest[0]))
    ensures DigitRun(s + rest) == |s|
  {
    if s == "" {
      assert s + rest == rest;
    } else {
      assert (s + rest)[1..] == s[1..] + rest;
      DigitRunAll(s[1..], rest);
    }
  }

  lemma TrimNothing(s: string)
    requires s != "" && !IsSpace(s[0]) && !IsSpace(s[|s| - 1])
    ensures Trim(s) == s
  {
    assert s[0..] == s;
  }

  lemma SpelledRuns(d: Dec)
    requires IsDec(d)
    ensures var rest := Unsigned(d);
      && DigitRun(rest) == |d.whole| && rest[..|d.whole|] == d.whole
      && |rest| == |d.whole| + (if d.frac == "" then 0 else 1 + |d.frac|)
      && (d.frac != "" ==> rest[|d.whole|] == '.' && rest[|d.whole| + 1..] == d.frac && DigitRun(d.frac) == |d.frac|)
      && (d.frac == "" ==> rest == d.whole)
  {
    DigitRunAll(d.whole, if d.frac == "" then "" else "." + d.frac);
    DigitRunAll(d.frac, "");
    assert d.frac + "" == d.frac;
  }

  lemma SpelledEnds(d: Dec)
    requires IsDec(d)
    ensures var rest := Unsigned(d);
      rest != "" && rest[0] != '-' && !IsSpace(rest[0]) && !IsSpace(rest[|rest| - 1])
  {
    var rest := Unsigned(d);
    assert rest[0] == d.whole[0] && IsDigit(d.whole[0]);
    if d.frac == "" {
      assert rest[|rest| - 1] == d.whole[|d.whole| - 1];
    } else {
      assert rest[|rest| - 1] == d.frac[|d.frac| - 1];
    }
  }

  lemma ParseSpelled(d: Dec)
    requires IsDec(d)
    ensures ParseUnsigned(d.negative, Unsigned(d)) == Decimal(d)
  {
    hide DigitRun, Unsigned;
    SpelledRuns(d);
  }

  /** Every decimal that is spelled out is read back. */
  lemma MatchSpelled(d: Dec)
    requires IsDec(d)
    ensures Match(Spell(d)) == Decimal(d)
  {
    hide ParseUnsigned, Trim, Unsigned, IsSpace;
    ParseSpelled(d);
    SpelledEnds(d);
    var rest := Unsigned(d);
    if d.negative {
      assert Spell(d)[1..] == rest;
      assert !IsSpace('-') by { DashIsNoSpace(); }
    } else {
      assert Spell(d) == rest;
    }
    TrimNothing(Spell(d));
  }

  lemma DashIsNoSpace()
    ensures !IsSpace('-')
  {
  }

  lemma {:induction false} TrimEndBlank(t: string, b: string)
    requires Blank(b) && (t == "" || !IsSpace(t[|t| - 1]))
    ensures TrimEnd(t + b) == t
    decreases |b|
  {
    hide IsSpace;
    if b == "" {
      assert t + b == t;
    } else {
      var s := t + b;
      assert s[..|s| - 1] == t + b[..|b| - 1] && s[|s| - 1] == b[|b| - 1];
      TrimEndBlank(t, b[..|b| - 1]);
    }
  }

  /** Blanks around a decimal do not matter. */
  lemma PaddedMatches(before: string, d: Dec, after: string)
    requires IsDec(d) && Blank(before) && Blank(after)
    ensures Match(before + (Spell(d) + after)) == Decimal(d)
  {
    hide ParseUnsigned, IsSpace, IsDec, Spell, SpaceRun, TrimEnd;
    var s := Spell(d);
    SpelledIsTight(d);
    assert (s + after)[0] == s[0];
    BlankRun(before, s + after);
    assert (before + (s + after))[|before|..] == s + after;
    TrimEndBlank(s, after);
    assert s + "" == s;
    TrimEndBlank(s, "");
    BlankRun("", s);
    assert "" + s == s && s[0..] == s;
    assert Trim(before + (s + after)) == Trim(s);
    MatchSpelled(d);
  }

  lemma SpelledIsTight(d: Dec)
    requires IsDec(d)
    ensures var s := Spell(d); s != "" && !IsSpace(s[0]) && !IsSpace(s[|s| - 1])
  {
    hide Unsigned;
    SpelledEnds(d);
    DashIsNoSpace();
  }

  // ---------------------------------------------------------------------
  // Printing
  // ---------------------------------------------------------------------

  function PadStart(s: string, n: nat): string
    decreases n - |s|
  {
    if |s| >= n then s else PadStart("0" + s, n)
  }

  /** The decimal that prints `n` ten-thousandths. */
  function Printed(n: int): Dec {
    var str := PadStart(Digits(if n < 0 then -n else n), 5);
    PadStartLength(Digits(if n < 0 then -n else n), 5);
    Dec(n < 0, str[..|str| - 4], str[|str| - 4..])
  }

  lemma {:induction false} PadStartLength(s: string, n: nat)
    ensures |PadStart(s, n)| >= n
    decreases n - |s|
  {
    if |s| < n {
      PadStartLength("0" + s, n);
    }
  }

  lemma {:induction false} DigitsSpell(n: nat)
    ensures AllDigits(Digits(n)) && Digits(n) != "" && Value(Digits(n)) == n
  {
    var s := Digits(n);
    if n < 10 {
      assert s[..0] == "" && Value(s[..0]) == 0;
    } else {
      DigitsSpell(n / 10);
      assert s[..|s| - 1] == Digits(n / 10);
    }
  }

  lemma {:induction false} ValueAppend(a: string, b: string)
    requires AllDigits(a) && AllDigits(b)
    ensures AllDigits(a + b) && Value(a + b) == Scale(Value(a), |b|) + Value(b)
    decreases |b|
  {
    hide Scale;
    if b == "" {
      assert a + b == a;
      ScaleNothing(Value(a));
    } else {
      var init := b[..|b| - 1];
      assert (a + b)[..|a + b| - 1] == a + init;
      ValueAppend(a, init);
      ScaleUp(Value(a), |init|);
    }
  }

  /** `a` with `n` zeros after it. */
  function Scale(a: nat, n: nat): nat { a * Pow10(n) }

  lemma ScaleNothing(a: nat)
    ensures Scale(a, 0) == a
  {
  }

  lemma ScaleUp(a: nat, n: nat)
    ensures Scale(a, n + 1) == Scale(a, n) * 10
  {
    TimesTen(a, Pow10(n));
  }

  lemma TimesTen(a: nat, p: nat)
    ensures a * (10 * p) == (a * p) * 10
  {
  }

  /** Read without its point, a decimal is its value times ten for each fraction digit. */
  lemma ExactIsShifted(d: Dec)
    requires IsDec(d)
    ensures AllDigits(d.whole + d.frac)
    ensures var whole: int := Value(d.whole + d.frac);
      Exact(d) * Pow10(|d.frac|) == 10000 * if d.negative then -whole else whole
  {
    hide Value;
    ValueAppend(d.whole, d.frac);
    var n := |d.frac|;
    assert Pow10(0) == 1 && Pow10(1) == 10 && Pow10(2) == 100 && Pow10(3) == 1000 && Pow10(4) == 10000;
    assert n == 0 || n == 1 || n == 2 || n == 3 || n == 4;
  }

  lemma {:induction false} PadStartValue(s: string, n: nat)
    requires AllDigits(s)
    ensures AllDigits(PadStart(s, n)) && Value(PadStart(s, n)) == Value(s)
    decreases n - |s|
  {
    if |s| < n {
      assert "0"[..0] == "" && Value("0"[..0]) == 0;
      assert Value("0") == 0;
      ValueAppend("0", s);
      PadStartValue("0" + s, n);
    }
  }

  /** What is printed means the number it was printed from, whatever its sign and size. */
  lemma PrintedExact(n: int)
    ensures IsDec(Printed(n)) && |Printed(n).frac| == 4 && Exact(Printed(n)) == n
  {
    hide Value, PadStart, Digits;
    var abs := if n < 0 then -n else n;
    var str := PadStart(Digits(abs), 5);
    DigitsSpell(abs);
    PadStartLength(Digits(abs), 5);
    PadStartValue(Digits(abs), 5);
    var d := Printed(n);
    assert str == d.whole + d.frac;
    ValueAppend(d.whole, d.frac);
    assert Pow10(4) == 10000 && Pow10(0) == 1;
  }

  lemma {:induction false} ValueBound(s: string)
    requires AllDigits(s)
    ensures Value(s) < Pow10(|s|)
  {
    if s != "" {
      ValueBound(s[..|s| - 1]);
    }
  }

  /** Reading a printed sum back loses its sign exactly between minus one and zero. */
  lemma PrintedReadsBackIff(n: int)
    ensures IsDec(Printed(n)) && Match(Spell(Printed(n))) == Decimal(Printed(n))
    ensures Scaled(Printed(n)) == n <==> !(-10000 < n < 0)
  {
    hide Value, PadStart, Digits, Spell, Match;
    PrintedExact(n);
    MatchSpelled(Printed(n));
    ScaledExactIff(Printed(n));
    ValueBound(Printed(n).frac);
    assert Pow10(4) == 10000 && Pow10(0) == 1;
  }

  // ---------------------------------------------------------------------
  // Sums
  // ---------------------------------------------------------------------

  predicate AllDecimal(values: seq<string>) {
    forall i :: 0 <= i < |values| ==> Match(values[i]).Decimal?
  }

  /** The decimal that a text is. */
  function DecOf(value: string): (d: Dec)
    requires Match(value).Decimal?
    ensures IsDec(d)
  {
    MatchSound(value);
    Match(value).dec
  }

  /** The total that the loop accumulates. */
  function Total(values: seq<string>): int
    requires AllDecimal(values)
  {
    if values == [] then 0 else Total(values[..|values| - 1]) + Scaled(DecOf(values[|values| - 1]))
  }

  /** The sum of what the texts mean. */
  function ExactTotal(values: seq<string>): int
    requires AllDecimal(values)
  {
    if values == [] then 0 else ExactTotal(values[..|values| - 1]) + Exact(DecOf(values[|values| - 1]))
  }

  datatype Sum = NotDecimals | Summed(text: string)

  method SumExact(values: seq<string>) returns (r: Sum)
    ensures r.Summed? <==> AllDecimal(values)
    ensures r.Summed? ==>
      && Match(r.text).Decimal? && |DecOf(r.text).frac| == 4
      && Exact(DecOf(r.text)) == Total(values)
      && (Exact(DecOf(r.text)) == ExactTotal(values) <==> KeepsSigns(values))
  {
    hide Scaled, Match, Exact, ExactTotal, KeepsSigns, Printed, Spell;
    var total := 0;
    var i := 0;
    while i < |values|
      invariant i <= |values| && AllDecimal(values[..i]) && total == Total(values[..i])
    {
      var parsed := Match(values[i]);
      if parsed.NotDecimal? {
        return NotDecimals;
      }
      assert values[..i + 1][..i] == values[..i];
      total := total + Scaled(DecOf(values[i]));
      i := i + 1;
    }
    assert values[..|values|] == values;
    PrintedExact(total);
    MatchSpelled(Printed(total));
    TotalExactIff(values);
    r := Summed(Spell(Printed(total)));
  }

  /** No addend loses its sign. */
  predicate KeepsSigns(values: seq<string>)
    requires AllDecimal(values)
  {
    forall i :: 0 <= i < |values| ==> !SignLost(DecOf(values[i]))
  }

  lemma KeepsSignsLast(values: seq<string>)
    requires values != [] && AllDecimal(values)
    ensures KeepsSigns(values) <==> KeepsSigns(values[..|values| - 1]) && !SignLost(DecOf(values[|values| - 1]))
  {
    hide SignLost, DecOf, Match;
    var init := values[..|values| - 1];
    assert forall i :: 0 <= i < |init| ==> init[i] == values[i];
    assert values == init + [values[|values| - 1]];
  }

  /**
   * The sum is exact exactly when no addend is negative with a zero integer
   * part and a fraction: errors only add up, they never cancel.
   */
  lemma {:induction false} TotalExactIff(values: seq<string>)
    requires AllDecimal(values)
    ensures Total(values) == ExactTotal(values) <==> KeepsSigns(values)
    ensures Total(values) >= ExactTotal(values)
  {
    hide Scaled, Exact, KeepsSigns, DecOf, Match;
    if values == [] {
      NothingLost();
    } else {
      TotalExactIff(values[..|values| - 1]);
      ScaledExactIff(DecOf(values[|values| - 1]));
      KeepsSignsLast(values);
    }
  }

  lemma NothingLost()
    ensures KeepsSigns([])
  {
  }

  lemma {:induction false} TotalAppend(a: seq<string>, b: seq<string>)
    requires AllDecimal(a) && AllDecimal(b)
    ensures AllDecimal(a + b) && Total(a + b) == Total(a) + Total(b)
    decreases |b|
  {
    hide Scaled, DecOf, Match;
    if b == [] {
      assert a + b == a;
    } else {
      assert (a + b)[..|a + b| - 1] == a + b[..|b| - 1];
      TotalAppend(a, b[..|b| - 1]);
    }
  }

  lemma RemoveOne(init: seq<string>, front: seq<string>, back: seq<string>, last: string)
    requires multiset(init + [last]) == multiset(front + [last] + back)
    ensures multiset(init) == multiset(front + back)
  {
    assert multiset(init + [last]) == multiset(init) + multiset{last};
    assert multiset(front + [last] + back) == multiset(front + back) + multiset{last};
    assert multiset(init) == multiset(init) + multiset{last} - multiset{last};
  }

  lemma TotalWithout(front: seq<string>, last: string, back: seq<string>)
    requires AllDecimal(front) && AllDecimal(back) && Match(last).Decimal?
    ensures AllDecimal(front + back) && AllDecimal(front + [last] + back) && AllDecimal([last])
    ensures Total(front + [last] + back) == Total(front + back) + Total([last])
  {
    hide Match, Total;
    TotalAppend(front, [last]);
    TotalAppend(front + [last], back);
    TotalAppend(front, back);
  }

  lemma SameAddends(a: seq<string>, b: seq<string>)
    requires AllDecimal(a) && multiset(a) == multiset(b)
    ensures AllDecimal(b) && |a| == |b|
  {
    hide Match;
    forall i | 0 <= i < |b| ensures Match(b[i]).Decimal? {
      assert b[i] in multiset(a);
    }
    assert |multiset(a)| == |a| && |multiset(b)| == |b|;
  }

  /** The order of the addends does not matter. */
  lemma {:induction false} TotalPermuted(a: seq<string>, b: seq<string>)
    requires AllDecimal(a) && multiset(a) == multiset(b)
    ensures AllDecimal(b) && Total(a) == Total(b)
    decreases |a|
  {
    hide Match, Total;
    SameAddends(a, b);
    if a == [] {
      assert b == [];
    } else {
      var init, last := a[..|a| - 1], a[|a| - 1];
      assert a == init + [last];
      assert last in multiset(b);
      var j :| 0 <= j < |b| && b[j] == last;
      var front, back := b[..j], b[j + 1..];
      assert b == front + [last] + back;
      RemoveOne(init, front, back, last);
      TotalPermuted(init, front + back);
      TotalWithout(front, last, back);
      TotalAppend(init, [last]);
    }
  }

  // ---------------------------------------------------------------------
  // Negation
  // ---------------------------------------------------------------------

  function Neg(value: string): string {
    var s := Trim(value);
    if s != "" && s[0] == '-' then s[1..] else "-" + s
  }

  lemma NegSpells(value: string, d: Dec)
    requires IsDec(d) && Spell(d) == Trim(value)
    ensures Neg(value) == Spell(d.(negative := !d.negative))
  {
    hide Trim, Unsigned, IsSpace, IsDigit;
    SpelledEnds(d);
    if d.negative {
      assert Spell(d)[1..] == Unsigned(d);
      assert "" + Unsigned(d) == Unsigned(d);
    } else {
      assert Spell(d) == Unsigned(d);
    }
    assert Unsigned(d.(negative := !d.negative)) == Unsigned(d) by { SameUnsigned(d, !d.negative); }
  }

  lemma SameUnsigned(d: Dec, negative: bool)
    ensures Unsigned(d.(negative := negative)) == Unsigned(d)
  {
  }

  /** Negation negates what the text means. */
  lemma NegExact(value: string)
    requires Match(value).Decimal?
    ensures Match(Neg(value)).Decimal?
    ensures DecOf(Neg(value)) == DecOf(value).(negative := !DecOf(value).negative)
    ensures Exact(DecOf(Neg(value))) == -Exact(DecOf(value))
  {
    hide Match, Neg, Spell, Trim, Value, FracValue;
    var d := DecOf(value);
    MatchSound(value);
    NegSpells(value, d);
    MatchSpelled(d.(negative := !d.negative));
  }

  /** A value and its negation sum to zero exactly if it has an integer part or no fraction. */
  lemma NegCancelsIff(value: string)
    requires Match(value).Decimal?
    ensures AllDecimal([value, Neg(value)])
    ensures var d := DecOf(value);
      Total([value, Neg(value)]) == 0 <==> Value(d.whole) != 0 || FracValue(d.frac) == 0
  {
    hide Match, Neg, DecOf, Total, Value, Exact, FracValue;
    NegExact(value);
    var both := [value, Neg(value)];
    forall i | 0 <= i < |both| ensures Match(both[i]).Decimal? {
    }
    TotalAppend([value], [Neg(value)]);
    assert both == [value] + [Neg(value)];
    TotalOne(value);
    TotalOne(Neg(value));
  }

  lemma TotalOne(value: string)
    requires Match(value).Decimal?
    ensures AllDecimal([value]) && Total([value]) == Scaled(DecOf(value))
  {
    hide Match, Scaled, DecOf;
    assert [value][..0] == [];
  }

  // ---------------------------------------------------------------------
  // Half of one, negative
  // ---------------------------------------------------------------------

  const MINUS_HALF := Dec(true, "0", "5")

  lemma MinusHalfValues()
    ensures IsDec(MINUS_HALF) && SignLost(MINUS_HALF)
    ensures Exact(MINUS_HALF) == -5000 && Scaled(MINUS_HALF) == 5000
  {
    assert "0"[..0] == "" && "5"[..0] == "";
    assert Value("0") == 0 && Value("5") == 5;
    assert Pow10(3) == 1000;
  }

  /** `-0.5` alone sums to one half, and with its negation to one. */
  lemma MinusHalfSums()
    ensures Match("-0.5") == Decimal(MINUS_HALF)
    ensures AllDecimal(["-0.5"]) && Total(["-0.5"]) == 5000 && ExactTotal(["-0.5"]) == -5000
    ensures AllDecimal(["-0.5", Neg("-0.5")]) && Total(["-0.5", Neg("-0.5")]) == 10000
  {
    hide Match, Neg, Scaled, Exact, Total, ExactTotal, DecOf;
    MinusHalfValues();
    assert Spell(MINUS_HALF) == "-0.5";
    MatchSpelled(MINUS_HALF);
    assert DecOf("-0.5") == MINUS_HALF by { DecIsMatch("-0.5"); }
    TotalOne("-0.5");
    ExactOne("-0.5");
    NegExact("-0.5");
    TotalOne(Neg("-0.5"));
    assert Scaled(MINUS_HALF.(negative := false)) == 5000 by { HalfValue(); }
    TotalAppend(["-0.5"], [Neg("-0.5")]);
    assert ["-0.5"] + [Neg("-0.5")] == ["-0.5", Neg("-0.5")];
  }

  lemma DecIsMatch(value: string)
    requires Match(value).Decimal?
    ensures DecOf(value) == Match(value).dec
  {
  }

  lemma HalfValue()
    ensures Scaled(MINUS_HALF.(negative := false)) == 5000
  {
    MinusHalfValues();
  }

  lemma ExactOne(value: string)
    requires Match(value).Decimal?
    ensures AllDecimal([value]) && ExactTotal([value]) == Exact(DecOf(value))
  {
    hide Match, Exact, DecOf;
    assert [value][..0] == [];
  }
}
