/** Printing and parsing token amounts with seven decimals. */
module Amounts {
  const DECIMALS: nat := 7
  const UNIT: nat := 10_000_000

  // --- Decimal digits ---------------------------------------------------------------

  predicate IsDigit(c: char) {
    '0' <= c <= '9'
  }

  predicate AllDigits(s: string) {
    forall i :: 0 <= i < |s| ==> IsDigit(s[i])
  }

  function Digit(d: nat): char
    requires d < 10
  {
    '0' + d as char
  }

  function DigitValue(c: char): nat
    requires IsDigit(c)
  {
    (c - '0') as nat
  }

  // BigInt's toString: no leading zeros, "0" for zero.
  function Decimal(n: nat): (s: string)
    ensures s != [] && AllDigits(s)
    ensures |s| > 1 ==> s[0] != '0'
    ensures n > 0 ==> s[0] != '0'
  {
    if n < 10 then [Digit(n)] else Decimal(n / 10) + [Digit(n % 10)]
  }

  function Value(s: string): nat
    requires AllDigits(s)
  {
    if s == [] then 0 else 10 * Value(s[..|s| - 1]) + DigitValue(s[|s| - 1])
  }

  function Zeros(n: nat): string {
    seq(n, _ => '0')
  }

  function Pow10(n: nat): (p: nat)
    ensures p > 0
  {
    if n == 0 then 1 else 10 * Pow10(n - 1)
  }

  function PadStart(s: string, width: nat): string {
    if |s| >= width then s else Zeros(width - |s|) + s
  }

  function StripZeros(s: string): string {
    if s != [] && s[|s| - 1] == '0' then StripZeros(s[..|s| - 1]) else s
  }

  // --- fmtAmt -----------------------------------------------------------------------

  function Spell(whole: string, frac: string): string {
    if frac == [] then whole else whole + "." + frac
  }

  function Fraction(frac: nat): string {
    StripZeros(PadStart(Decimal(frac), DECIMALS))
  }

  function FmtAmt(raw: int): string {
    var magnitude := if raw < 0 then -raw else raw;
    var text := Spell(Decimal(magnitude / UNIT), Fraction(magnitude % UNIT));
    if raw < 0 then "-" + text else text
  }

  // --- parseAmount7 -----------------------------------------------------------------

  // White space and line terminators, as String.prototype.trim removes them.
  predicate IsSpace(c: char) {
    || '\t' <= c <= '\r' || c == ' ' || c == '\U{A0}' || c == '\U{1680}' || '\U{2000}' <= c <= '\U{200A}'
    || c == '\U{2028}' || c == '\U{2029}' || c == '\U{202F}' || c == '\U{205F}' || c == '\U{3000}' || c == '\U{FEFF}'
  }

  function TrimStart(s: string): string {
    if s != [] && IsSpace(s[0]) then TrimStart(s[1..]) else s
  }

  function TrimEnd(s: string): string {
    if s != [] && IsSpace(s[|s| - 1]) then TrimEnd(s[..|s| - 1]) else s
  }

  function Trim(s: string): string {
    TrimEnd(TrimStart(s))
  }

  // Index of the first dot, or the length when there is none.
  function FirstDot(s: string): (i: nat)
    ensures i <= |s| && (i < |s| ==> s[i] == '.')
  {
    if s == [] || s[0] == '.' then 0 else 1 + FirstDot(s[1..])
  }

  datatype Parsed = Blank | Invalid | Amount(raw: nat)

  // One or more digits, optionally a dot and one to seven digits.
  predicate IsAmount(s: string) {
    var dot := FirstDot(s);
    && dot > 0 && AllDigits(s[..dot])
    && (dot == |s| || (1 <= |s| - dot - 1 <= DECIMALS && AllDigits(s[dot + 1..])))
  }

  function FracPart(s: string): string {
    var dot := FirstDot(s);
    if dot < |s| then s[dot + 1..] else []
  }

  function Padded(frac: string): string {
    (frac + Zeros(DECIMALS))[..DECIMALS]
  }

  function AmountOf(s: string): nat
    requires IsAmount(s)
  {
    Value(s[..FirstDot(s)]) * UNIT + Value(Padded(FracPart(s)))
  }

  function ParseAmount7(input: string): Parsed {
    var s := Trim(input);
    if s == [] then Blank
    else if !IsAmount(s) then Invalid
    else Amount(AmountOf(s))
  }

  // --- Digits and values -----------------------------------------------------------------

  lemma {:induction false} DecimalValue(n: nat)
    ensures Value(Decimal(n)) == n
  {
    if n >= 10 {
      DecimalValue(n / 10);
      assert Decimal(n)[..|Decimal(n)| - 1] == Decimal(n / 10);
    }
  }

  // A digit string without a leading zero is the decimal of its value.
  lemma {:induction false} ValueDecimal(s: string)
    requires s != [] && AllDigits(s) && (|s| == 1 || s[0] != '0')
    ensures Decimal(Value(s)) == s
  {
    if |s| > 1 {
      ValueDecimal(s[..|s| - 1]);
    } else {
      assert Value(s[..0]) == 0;
    }
  }

  // n digits, with leading zeros.
  function Fixed(v: nat, n: nat): (s: string)
    ensures |s| == n && AllDigits(s)
  {
    if n == 0 then [] else Fixed(v / 10, n - 1) + [Digit(v % 10)]
  }

  lemma {:induction false} FixedZero(n: nat)
    ensures Fixed(0, n) == Zeros(n)
  {
    if n > 0 {
      FixedZero(n - 1);
    }
  }

  lemma {:induction false} PadIsFixed(v: nat, n: nat)
    requires v < Pow10(n) && n > 0
    ensures PadStart(Decimal(v), n) == Fixed(v, n)
  {
    if v < 10 {
      FixedZero(n - 1);
    } else {
      assert n > 1 by {
        assert Pow10(1) == 10;
      }
      PadIsFixed(v / 10, n - 1);
    }
  }

  lemma {:induction false} LastDigit(s: string, d: nat)
    requires AllDigits(s) && d < 10
    ensures AllDigits(s + [Digit(d)]) && Value(s + [Digit(d)]) == 10 * Value(s) + d
  {
    assert (s + [Digit(d)])[..|s|] == s;
  }

  lemma {:induction false} TenthBelow(v: nat, p: nat)
    requires v < 10 * p
    ensures v / 10 < p && 10 * (v / 10) + v % 10 == v
  {
  }

  lemma {:induction false} FixedValue(v: nat, n: nat)
    requires v < Pow10(n)
    ensures Value(Fixed(v, n)) == v
  {
    if n > 0 {
      TenthBelow(v, Pow10(n - 1));
      FixedValue(v / 10, n - 1);
      LastDigit(Fixed(v / 10, n - 1), v % 10);
    }
  }

  lemma {:induction false} ValueFixed(s: string)
    requires AllDigits(s)
    ensures Fixed(Value(s), |s|) == s && Value(s) < Pow10(|s|)
  {
    if s != [] {
      ValueFixed(s[..|s| - 1]);
    }
  }

  lemma {:induction false} StripRestores(s: string, width: nat)
    requires |s| <= width
    ensures StripZeros(s) <= s && |StripZeros(s)| <= |s|
    ensures (StripZeros(s) + Zeros(width))[..width] == s + Zeros(width - |s|)
    ensures StripZeros(s) != [] ==> StripZeros(s)[|StripZeros(s)| - 1] != '0'
  {
    if s != [] && s[|s| - 1] == '0' {
      StripRestores(s[..|s| - 1], width);
      assert s[..|s| - 1] + Zeros(width - (|s| - 1)) == s + Zeros(width - |s|);
    }
  }

  lemma {:induction false} StripUndoesPadding(s: string, n: nat)
    requires s != [] ==> s[|s| - 1] != '0'
    ensures StripZeros(s + Zeros(n)) == s
  {
    if n == 0 {
      assert s + Zeros(0) == s;
    } else {
      assert (s + Zeros(n))[..|s + Zeros(n)| - 1] == s + Zeros(n - 1);
      StripUndoesPadding(s, n - 1);
    }
  }

  // --- Shapes of strings --------------------------------------------------------------------

  lemma {:induction false} DotAfterDigits(whole: string, rest: string)
    requires AllDigits(whole) && (rest == [] || rest[0] == '.')
    ensures FirstDot(whole + rest) == |whole|
  {
    if whole == [] {
      assert whole + rest == rest;
    } else {
      assert (whole + rest)[1..] == whole[1..] + rest;
      DotAfterDigits(whole[1..], rest);
    }
  }

  // What a printed non-negative amount looks like: no needless zero on either side.
  predicate Canonical(s: string) {
    && IsAmount(s)
    && (FirstDot(s) == 1 || s[0] != '0')
    && (FirstDot(s) < |s| ==> s[|s| - 1] != '0')
  }

  lemma TrimKeeps(s: string)
    requires s != [] && !IsSpace(s[0]) && !IsSpace(s[|s| - 1])
    ensures Trim(s) == s
  {
    assert TrimStart(s) == s;
  }

  predicate AllSpaces(s: string) {
    forall i :: 0 <= i < |s| ==> IsSpace(s[i])
  }

  lemma {:induction false} TrimStartSkips(pre: string, s: string)
    requires AllSpaces(pre)
    ensures TrimStart(pre + s) == TrimStart(s)
  {
    if pre == [] {
      assert pre + s == s;
    } else {
      assert (pre + s)[1..] == pre[1..] + s;
      TrimStartSkips(pre[1..], s);
    }
  }

  lemma {:induction false} TrimEndSkips(s: string, post: string)
    requires AllSpaces(post)
    ensures TrimEnd(s + post) == TrimEnd(s)
  {
    if post == [] {
      assert s + post == s;
    } else {
      var n := |post| - 1;
      assert (s + post)[..|s + post| - 1] == s + post[..n];
      TrimEndSkips(s, post[..n]);
    }
  }

  lemma {:induction false} TrimStartSplits(s: string) returns (pre: string)
    ensures AllSpaces(pre) && s == pre + TrimStart(s)
    ensures TrimStart(s) != [] ==> !IsSpace(TrimStart(s)[0])
  {
    pre := [];
    if s != [] && IsSpace(s[0]) {
      pre := TrimStartSplits(s[1..]);
      pre := [s[0]] + pre;
    }
  }

  lemma {:induction false} TrimEndSplits(s: string) returns (post: string)
    ensures AllSpaces(post) && s == TrimEnd(s) + post
    ensures TrimEnd(s) != [] ==> !IsSpace(TrimEnd(s)[|TrimEnd(s)| - 1])
  {
    post := [];
    if s != [] && IsSpace(s[|s| - 1]) {
      post := TrimEndSplits(s[..|s| - 1]);
      post := post + [s[|s| - 1]];
    }
  }

  lemma {:induction false} TrimStartBefore(s: string, post: string)
    requires AllSpaces(post)
    ensures TrimEnd(TrimStart(s + post)) == TrimEnd(TrimStart(s))
  {
    var pre := TrimStartSplits(s);
    var rest := TrimStart(s);
    assert s + post == pre + (rest + post);
    TrimStartSkips(pre, rest + post);
    if rest != [] {
      assert TrimStart(rest + post) == rest + post;
      TrimEndSkips(rest, post);
    } else {
      assert rest + post == post + [];
      TrimStartSkips(post, []);
    }
  }

  // White space around an input never matters, whatever the input is.
  lemma {:induction false} SpacesAroundAreIgnored(pre: string, s: string, post: string)
    requires AllSpaces(pre) && AllSpaces(post)
    ensures ParseAmount7(pre + s + post) == ParseAmount7(s)
  {
    assert pre + s + post == pre + (s + post);
    TrimStartSkips(pre, s + post);
    TrimStartBefore(s, post);
  }

  lemma {:induction false} SpellSplits(whole: string, frac: string)
    requires whole != [] && AllDigits(whole) && |frac| <= DECIMALS && AllDigits(frac)
    ensures var s := Spell(whole, frac);
      FirstDot(s) == |whole| && FracPart(s) == frac && s[..FirstDot(s)] == whole && IsAmount(s)
  {
    var rest := if frac == [] then [] else "." + frac;
    DotAfterDigits(whole, rest);
    assert Spell(whole, frac) == whole + rest;
  }

  // An amount spelled from its two parts parses to them.
  lemma {:induction false} PartsParse(whole: string, frac: string)
    requires whole != [] && AllDigits(whole) && |frac| <= DECIMALS && AllDigits(frac)
    ensures AllDigits(Padded(frac))
    ensures ParseAmount7(Spell(whole, frac)) == Amount(Value(whole) * UNIT + Value(Padded(frac)))
  {
    var s := Spell(whole, frac);
    SpellSplits(whole, frac);
    assert IsDigit(s[0]) && IsDigit(s[|s| - 1]);
    TrimKeeps(s);
  }

  lemma FractionIsExact(frac: nat)
    requires frac < UNIT
    ensures |Fraction(frac)| <= DECIMALS && AllDigits(Fraction(frac))
    ensures Fraction(frac) != [] ==> Fraction(frac)[|Fraction(frac)| - 1] != '0'
    ensures Padded(Fraction(frac)) == Fixed(frac, DECIMALS)
  {
    assert Pow10(DECIMALS) == UNIT;
    PadIsFixed(frac, DECIMALS);
    var padded := PadStart(Decimal(frac), DECIMALS);
    StripRestores(padded, DECIMALS);
    assert padded + Zeros(0) == padded;
    forall i | 0 <= i < |Fraction(frac)| ensures IsDigit(Fraction(frac)[i]) {
      assert Fraction(frac)[i] == padded[i];
    }
  }

  lemma {:induction false} PartsHaveValues(x: nat)
    ensures Value(Decimal(x / UNIT)) == x / UNIT
    ensures var frac := Fraction(x % UNIT);
      && |frac| <= DECIMALS && AllDigits(frac) && (frac != [] ==> frac[|frac| - 1] != '0')
      && AllDigits(Padded(frac)) && Value(Padded(frac)) == x % UNIT
  {
    DecimalValue(x / UNIT);
    FractionIsExact(x % UNIT);
    assert Pow10(DECIMALS) == UNIT;
    FixedValue(x % UNIT, DECIMALS);
  }

  lemma {:induction false} TenTimes(v: nat, p: nat)
    ensures v * (10 * p) == 10 * (v * p)
  {
  }

  lemma {:induction false} ValueOfPadding(s: string, n: nat)
    requires AllDigits(s)
    ensures AllDigits(s + Zeros(n)) && Value(s + Zeros(n)) == Value(s) * Pow10(n)
  {
    if n == 0 {
      assert s + Zeros(0) == s;
    } else {
      assert (s + Zeros(n))[..|s + Zeros(n)| - 1] == s + Zeros(n - 1);
      ValueOfPadding(s, n - 1);
      TenTimes(Value(s), Pow10(n - 1));
    }
  }

  lemma {:induction false} PaddedValue(frac: string)
    requires AllDigits(frac) && |frac| <= DECIMALS
    ensures AllDigits(Padded(frac)) && Value(Padded(frac)) == Value(frac) * Pow10(7 - |frac|)
  {
    ValueOfPadding(frac, 7 - |frac|);
    assert Padded(frac) == frac + Zeros(7 - |frac|);
  }

  // --- Main results ------------------------------------------------------------------------------

  // Parsing a printed amount gives it back, and what is printed is canonical.
  lemma {:induction false} ParseUndoesFmt(x: nat)
    ensures ParseAmount7(FmtAmt(x)) == Amount(x)
    ensures Canonical(FmtAmt(x))
  {
    var whole, frac := Decimal(x / UNIT), Fraction(x % UNIT);
    PartsHaveValues(x);
    assert FmtAmt(x) == Spell(whole, frac);
    SpellSplits(whole, frac);
    PartsParse(whole, frac);
    assert frac != [] ==> Spell(whole, frac)[|Spell(whole, frac)| - 1] == frac[|frac| - 1];
  }

  // Leading and trailing zeros, a missing fraction and white space around are all accepted,
  // and the fraction counts by its place.
  lemma {:induction false} SpelledAmountParses(pre: string, whole: string, frac: string, post: string)
    requires AllSpaces(pre) && AllSpaces(post)
    requires whole != [] && AllDigits(whole) && AllDigits(frac) && |frac| <= DECIMALS
    ensures ParseAmount7(pre + Spell(whole, frac) + post)
         == Amount(Value(whole) * 10_000_000 + Value(frac) * Pow10(7 - |frac|))
  {
    SpacesAroundAreIgnored(pre, Spell(whole, frac), post);
    PartsParse(whole, frac);
    PaddedValue(frac);
  }

  // And nothing else is: whatever parses to an amount is such a string.
  lemma {:induction false} AcceptedIsSpelled(s: string) returns (pre: string, whole: string, frac: string, post: string)
    requires ParseAmount7(s).Amount?
    ensures AllSpaces(pre) && AllSpaces(post)
    ensures whole != [] && AllDigits(whole) && AllDigits(frac) && |frac| <= DECIMALS
    ensures s == pre + Spell(whole, frac) + post
  {
    pre := TrimStartSplits(s);
    post := TrimEndSplits(TrimStart(s));
    var t := Trim(s);
    whole, frac := t[..FirstDot(t)], FracPart(t);
    assert t == Spell(whole, frac);
  }

  lemma {:induction false} BlankExactly(s: string)
    ensures ParseAmount7(s) == Blank <==> AllSpaces(s)
  {
    if AllSpaces(s) {
      assert [] + s == s;
      TrimStartBefore([], s);
    } else {
      var pre := TrimStartSplits(s);
      var post := TrimEndSplits(TrimStart(s));
      assert s == pre + (Trim(s) + post);
    }
  }

  lemma CanonicalFraction(frac: string)
    requires |frac| <= DECIMALS && AllDigits(frac) && (frac != [] ==> frac[|frac| - 1] != '0')
    ensures AllDigits(Padded(frac)) && Value(Padded(frac)) < UNIT && Fraction(Value(Padded(frac))) == frac
  {
    var padded := Padded(frac);
    assert Pow10(DECIMALS) == UNIT;
    ValueFixed(padded);
    PadIsFixed(Value(padded), DECIMALS);
    assert padded == frac + Zeros(DECIMALS - |frac|);
    StripUndoesPadding(frac, DECIMALS - |frac|);
  }

  // Every canonical string is the print of the amount it parses to.
  lemma {:induction false} FmtUndoesParse(s: string)
    requires Canonical(s)
    ensures FmtAmt(AmountOf(s)) == s && ParseAmount7(s) == Amount(AmountOf(s))
  {
    var whole, frac := s[..FirstDot(s)], FracPart(s);
    assert s == Spell(whole, frac);
    PartsParse(whole, frac);
    ValueDecimal(whole);
    CanonicalFraction(frac);
    assert AmountOf(s) / UNIT == Value(whole) && AmountOf(s) % UNIT == Value(Padded(frac));
  }

  // So printing after parsing is a normal form: it keeps the value, and two accepted
  // strings get the same print exactly when they mean the same amount.
  lemma {:induction false} NormalForm(s: string, t: string)
    requires ParseAmount7(s).Amount? && ParseAmount7(t).Amount?
    ensures ParseAmount7(FmtAmt(ParseAmount7(s).raw)) == ParseAmount7(s)
    ensures FmtAmt(ParseAmount7(s).raw) == FmtAmt(ParseAmount7(t).raw) <==> ParseAmount7(s) == ParseAmount7(t)
  {
    ParseUndoesFmt(ParseAmount7(s).raw);
    ParseUndoesFmt(ParseAmount7(t).raw);
  }

  // Negative amounts print as a minus and their magnitude, and are not accepted back.
  lemma {:induction false} NegativeIsInvalid(x: int)
    requires x < 0
    ensures FmtAmt(x) == "-" + FmtAmt(-x)
    ensures ParseAmount7(FmtAmt(x)) == Invalid
  {
    FractionIsExact(-x % UNIT);
    var text := Spell(Decimal(-x / UNIT), Fraction(-x % UNIT));
    assert IsDigit(text[|text| - 1]);
    var s := FmtAmt(x);
    assert s == "-" + text && s[0] == '-' && s[|s| - 1] == text[|text| - 1];
    TrimKeeps(s);
    assert FirstDot(s) > 0 && s[..FirstDot(s)][0] == '-';
  }
}
