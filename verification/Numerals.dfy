// How numbers are written: every numeral is read back as its digits, and what looks like the
// continuation of a number (a range, a property of a number) is not taken into it.

module Numerals {
  import opened Options
  import opened Lexing
  import opened Tokens
  import Compaction
  import StringLiteral

  function DigitsOf(radix: nat): string {
    match radix
    case 16 => "0123456789abcdefABCDEF"
    case 8 => "01234567"
    case 2 => "01"
    case _ => "0123456789"
  }

  type Radix = r: nat | r == 2 || r == 8 || r == 10 || r == 16 witness 10

  lemma RadixDigits(radix: Radix, c: char)
    ensures IsRadixDigit(radix, c) <==> c in DigitsOf(radix)
    ensures c in DigitsOf(radix) ==> c != '_' && c != '.' && IsIdContinue(c)
    ensures IsDigit(c) <==> c in DigitsOf(10)
  {
    assert IsDigit(c) ==> c in "0123456789";
    assert '0' <= c <= '7' ==> c in "01234567";
    assert 'a' <= c <= 'f' ==> c in "abcdef";
    assert 'A' <= c <= 'F' ==> c in "ABCDEF";
  }

  // ---- digits and separators ----

  function Without(w: string): string {
    if w == [] then [] else (if w[0] == '_' then [] else [w[0]]) + Without(w[1..])
  }

  predicate Digital(radix: Radix, w: string) {
    forall c | c in w :: c == '_' || c in DigitsOf(radix)
  }

  predicate Stops(radix: Radix, rest: string) {
    rest == [] || (rest[0] != '_' && rest[0] !in DigitsOf(radix))
  }

  lemma {:induction false} WithoutDigital(radix: Radix, w: string)
    requires Digital(radix, w)
    ensures forall c | c in Without(w) :: c in DigitsOf(radix)
  {
    if w != [] {
      assert w[0] in w;
      WithoutDigital(radix, w[1..]);
    }
  }

  // Exactly the digits of the radix are taken, and the separators among them are dropped.
  lemma {:induction false} TakenExactly(radix: Radix, w: string, rest: string)
    requires Digital(radix, w) && Stops(radix, rest)
    ensures TakeDigits(radix, w + rest) == Digits(Without(w), rest)
  {
    if w == [] {
      assert w + rest == rest;
      if rest != [] { RadixDigits(radix, rest[0]); }
    } else {
      assert w[0] in w && (w + rest)[0] == w[0] && (w + rest)[1..] == w[1..] + rest;
      RadixDigits(radix, w[0]);
      hide DigitsOf, IsRadixDigit;
      TakenExactly(radix, w[1..], rest);
    }
  }

  // ---- decimal numerals ----

  datatype Exponent = Exponent(mark: char, sign: string, digits: string)
  datatype Written = Written(whole: string, fraction: Option<string>, exponent: Option<Exponent>)

  predicate Leads(w: string) {
    w != [] && w[0] in DigitsOf(10) && Digital(10, w)
  }

  predicate WellExponent(e: Exponent) {
    && (e.mark == 'e' || e.mark == 'E')
    && (e.sign == "" || e.sign == "+" || e.sign == "-")
    && Digital(10, e.digits) && Without(e.digits) != []
    && (e.sign == "" ==> Leads(e.digits))
  }

  predicate WellWritten(w: Written) {
    && Leads(w.whole)
    && (w.fraction.Some? ==> Leads(w.fraction.value))
    && (w.exponent.Some? ==> WellExponent(w.exponent.value))
  }

  function FractionText(f: Option<string>): string {
    if f == None then "" else "." + f.value
  }

  function ExponentText(e: Option<Exponent>): string {
    if e == None then "" else [e.value.mark] + (e.value.sign + e.value.digits)
  }

  function Spelled(w: Written): string {
    w.whole + (FractionText(w.fraction) + ExponentText(w.exponent))
  }

  function FractionRead(f: Option<string>): string {
    if f == None then "" else "." + Without(f.value)
  }

  function ExponentRead(e: Option<Exponent>): string {
    if e == None then "" else "e" + (e.value.sign + Without(e.value.digits))
  }

  // The separators are gone, and the mark of the exponent is always `e`.
  function Meant(w: Written): string {
    Without(w.whole) + (FractionRead(w.fraction) + ExponentRead(w.exponent))
  }

  // `rest` does not go on with an exponent.
  predicate NoExponent(rest: string) {
    |rest| >= 2 && rest[0] in "eE" ==> rest[1] !in DigitsOf(10) && rest[1] != '+' && rest[1] != '-'
  }

  // `rest` does not go on with a fraction: what comes after the period is a second period or a name.
  predicate NoFraction(rest: string) {
    |rest| >= 2 && rest[0] == '.' ==> rest[1] == '.' || IsIdStart(rest[1])
  }

  predicate Ends(w: Written, rest: string) {
    && Stops(10, rest)
    && (w.exponent == None ==> NoExponent(rest))
    && (w.exponent == None && w.fraction == None ==>
          NoFraction(rest) && (rest != [] && Without(w.whole) == "0" ==> !IsRadixMark(rest[0])))
  }

  lemma SignedExponent(text: string, mark: char, sign: char, after: string)
    requires (mark == 'e' || mark == 'E') && (sign == '+' || sign == '-')
    ensures var d := TakeDigits(10, after);
      WithExponent(text, [mark] + ([sign] + after)) == Numeral(text + ("e" + [sign]) + d.text, 10, d.rest)
  {
    hide TakeDigits;
    var s := [mark] + ([sign] + after);
    assert s[0] == mark && s[1] == sign && s[2..] == after;
    assert ExponentMark(s) == Some("e" + [sign]);
  }

  lemma PlainExponent(text: string, mark: char, after: string)
    requires (mark == 'e' || mark == 'E') && after != [] && IsDigit(after[0])
    ensures var d := TakeDigits(10, after);
      WithExponent(text, [mark] + after) == Numeral(text + "e" + d.text, 10, d.rest)
  {
    hide TakeDigits;
    var s := [mark] + after;
    assert s[0] == mark && s[1] == after[0] && s[1..] == after;
    assert ExponentMark(s) == Some("e");
  }

  lemma NotAnExponent(s: string)
    requires NoExponent(s)
    ensures ExponentMark(s) == None
  {
    if |s| >= 2 { RadixDigits(10, s[1]); }
  }

  lemma GroupedRead(text: string, sign: string, digits: string)
    ensures (text + ("e" + sign)) + digits == text + ("e" + (sign + digits))
    ensures (text + "e") + digits == text + ("e" + ("" + digits))
  {
    assert ("e" + sign) + digits == "e" + (sign + digits) && "" + digits == digits;
  }

  lemma SomeExponentTaken(text: string, x: Exponent, rest: string)
    requires WellExponent(x) && Stops(10, rest)
    ensures WithExponent(text, [x.mark] + (x.sign + (x.digits + rest)))
         == Numeral(text + ("e" + (x.sign + Without(x.digits))), 10, rest)
  {
    hide TakeDigits, Without, DigitsOf, Digital, Stops, WithExponent;
    var after := x.digits + rest;
    TakenExactly(10, x.digits, rest);
    GroupedRead(text, x.sign, Without(x.digits));
    if x.sign == "" {
      RadixDigits(10, x.digits[0]);
      assert "" + after == after && after[0] == x.digits[0];
      PlainExponent(text, x.mark, after);
    } else {
      assert x.sign == [x.sign[0]];
      SignedExponent(text, x.mark, x.sign[0], after);
    }
  }

  lemma ExponentTaken(text: string, e: Option<Exponent>, rest: string)
    requires (e.Some? ==> WellExponent(e.value)) && Stops(10, rest) && (e == None ==> NoExponent(rest))
    ensures WithExponent(text, ExponentText(e) + rest) == Numeral(text + ExponentRead(e), 10, rest)
  {
    hide TakeDigits, Without, WellExponent, NoExponent, Stops;
    if e == None {
      assert ExponentText(e) + rest == rest && text + "" == text;
      NotAnExponent(rest);
    } else {
      hide WithExponent;
      var mark, sign, digits := [e.value.mark], e.value.sign, e.value.digits;
      assert (mark + (sign + digits)) + rest == mark + (sign + (digits + rest));
      SomeExponentTaken(text, e.value, rest);
    }
  }

  // What follows the digits of a numeral stops them.
  lemma ExponentStops(e: Option<Exponent>, rest: string)
    requires (e.Some? ==> WellExponent(e.value)) && Stops(10, rest)
    ensures Stops(10, ExponentText(e) + rest)
    ensures e.Some? ==> NoFraction(ExponentText(e) + rest) && !IsRadixMark((ExponentText(e) + rest)[0])
  {
    if e == None { assert ExponentText(e) + rest == rest; }
  }

  lemma PlainFraction(text: string, after: string)
    requires after != [] && IsDigit(after[0])
    ensures var d := TakeDigits(10, after);
      WithFraction(text, "." + after) == WithExponent(text + "." + d.text, d.rest)
  {
    hide TakeDigits, WithExponent;
    var s := "." + after;
    assert s[0] == '.' && s[1] == after[0] && s[1..] == after;
    assert PeriodMark(s) == Some(".");
  }

  lemma NotAFraction(text: string, s: string)
    requires NoFraction(s)
    ensures WithFraction(text, s) == WithExponent(text, s)
  {
    hide WithExponent, DigitsOf, TakeDigits;
    if |s| >= 2 { RadixDigits(10, s[1]); }
    assert PeriodMark(s) == None;
  }

  lemma FractionDigits(text: string, digits: string, e: Option<Exponent>, rest: string)
    requires Leads(digits) && (e.Some? ==> WellExponent(e.value)) && Stops(10, rest)
    requires e == None ==> NoExponent(rest)
    ensures WithFraction(text, "." + (digits + (ExponentText(e) + rest)))
         == Numeral(text + "." + Without(digits) + ExponentRead(e), 10, rest)
  {
    hide Without, DigitsOf, NoExponent, Digital, Stops, ExponentText, ExponentRead, WithExponent, WithFraction, TakeDigits,
      WellExponent, NoFraction, IsRadixMark;
    var after := ExponentText(e) + rest;
    ExponentStops(e, rest);
    RadixDigits(10, digits[0]);
    assert (digits + after)[0] == digits[0];
    TakenExactly(10, digits, after);
    PlainFraction(text, digits + after);
    ExponentTaken(text + "." + Without(digits), e, rest);
  }

  lemma FractionTaken(text: string, f: Option<string>, e: Option<Exponent>, rest: string)
    requires (f.Some? ==> Leads(f.value)) && (e.Some? ==> WellExponent(e.value)) && Stops(10, rest)
    requires e == None ==> NoExponent(rest) && (f == None ==> NoFraction(rest))
    ensures WithFraction(text, FractionText(f) + (ExponentText(e) + rest))
         == Numeral(text + (FractionRead(f) + ExponentRead(e)), 10, rest)
  {
    hide Without, DigitsOf, NoExponent, Digital, Stops, ExponentRead, WithExponent, WithFraction, WellExponent, NoFraction;
    var after := ExponentText(e) + rest;
    if f == None {
      ExponentStops(e, rest);
      if e == None { assert after == rest; }
      hide ExponentText;
      assert "" + after == after && "" + ExponentRead(e) == ExponentRead(e);
      NotAFraction(text, after);
      ExponentTaken(text, e, rest);
    } else {
      hide ExponentText;
      FractionDigits(text, f.value, e, rest);
      var p, d, x := ".", Without(f.value), ExponentRead(e);
      assert (p + f.value) + after == p + (f.value + after);
      assert text + p + d + x == text + ((p + d) + x);
    }
  }

  lemma WholeTaken(w: Written, rest: string)
    requires WellWritten(w) && Ends(w, rest)
    ensures Whole([w.whole[0]], (w.whole + (FractionText(w.fraction) + (ExponentText(w.exponent) + rest)))[1..])
         == Numeral(Meant(w), 10, rest)
  {
    hide FractionText, ExponentText, FractionRead, ExponentRead, TakeDigits, WithFraction, WellExponent, NoExponent, NoFraction;
    var after := FractionText(w.fraction) + (ExponentText(w.exponent) + rest);
    var s := w.whole + after;
    assert s[1..] == w.whole[1..] + after;
    RadixDigits(10, w.whole[0]);
    AfterWhole(w, rest);
    TakenExactly(10, w.whole[1..], after);
    assert [w.whole[0]] + Without(w.whole[1..]) == Without(w.whole);
    FractionTaken(Without(w.whole), w.fraction, w.exponent, rest);
  }

  lemma AfterWhole(w: Written, rest: string)
    requires WellWritten(w) && Ends(w, rest)
    ensures var after := FractionText(w.fraction) + (ExponentText(w.exponent) + rest);
      Stops(10, after) && (after != [] && Without(w.whole) == "0" ==> !IsRadixMark(after[0]))
  {
    ExponentStops(w.exponent, rest);
    if w.fraction == None {
      assert "" + (ExponentText(w.exponent) + rest) == ExponentText(w.exponent) + rest;
      if w.exponent == None { assert "" + rest == rest; }
    }
  }

  // The digits a numeral ends with.
  function Final(w: Written): string {
    if w.exponent.Some? then w.exponent.value.digits else if w.fraction.Some? then w.fraction.value else w.whole
  }

  lemma FinalLast(w: Written)
    requires WellWritten(w)
    ensures Digital(10, Final(w)) && Without(Final(w)) != []
    ensures Meant(w) != [] && Meant(w)[|Meant(w)| - 1] == Without(Final(w))[|Without(Final(w))| - 1]
  {
    hide DigitsOf, Digital;
    LeadsSome(w.whole);
    if w.fraction.Some? { LeadsSome(w.fraction.value); }
    hide Without;
  }

  lemma LeadsSome(w: string)
    requires Leads(w)
    ensures Digital(10, w) && Without(w) != []
  {
    RadixDigits(10, w[0]);
    hide DigitsOf;
  }

  lemma LastDigit(w: Written)
    requires WellWritten(w)
    ensures Meant(w) != [] && IsDigit(Meant(w)[|Meant(w)| - 1])
  {
    hide Without, DigitsOf, WellExponent, Leads, Final;
    FinalLast(w);
    var last := Without(Final(w));
    WithoutDigital(10, Final(w));
    assert last[|last| - 1] in last;
    RadixDigits(10, last[|last| - 1]);
  }

  // A numeral is read back as its digits, and nothing else is taken.
  lemma NumeralRead(negated: bool, w: Written, rest: string)
    requires WellWritten(w) && Ends(w, rest)
    ensures ReadNumber(negated, Spelled(w) + rest) == Read(TNumber(Signed(negated, Meant(w))), None, rest)
  {
    hide Whole, Meant, Ends, FractionText, ExponentText, DigitsOf, Digital, Without, WellExponent;
    var s := Spelled(w) + rest;
    assert s == w.whole + (FractionText(w.fraction) + (ExponentText(w.exponent) + rest));
    assert s[0] == w.whole[0];
    WholeTaken(w, rest);
    LastDigit(w);
    var text := Signed(negated, Meant(w));
    assert text[|text| - 1] == Meant(w)[|Meant(w)| - 1];
  }

  // A period that is neither followed by a digit, a period nor a name belongs to the number.
  lemma TrailingPeriod(whole: string, rest: string)
    requires Leads(whole) && rest != [] && rest[0] !in DigitsOf(10) && rest[0] != '.' && !IsIdStart(rest[0])
    ensures ReadNumber(false, whole + ("." + rest)) == Read(TNumber(Without(whole) + ".0"), None, rest)
  {
    hide DigitsOf, Digital, Without;
    var after := "." + rest;
    var s := whole + after;
    assert s[0] == whole[0] && s[1..] == whole[1..] + after && after[1] == rest[0] && after[1..] == rest;
    RadixDigits(10, whole[0]);
    RadixDigits(10, rest[0]);
    DotStops();
    WithoutFirst(whole);
    TakenExactly(10, whole[1..], after);
    NothingWithout(10);
    TakenExactly(10, [], rest);
    assert [] + rest == rest;
    hide TakeDigits;
    var text := Without(whole) + ".0";
    assert PeriodMark(after) == Some(".0") && ExponentMark(rest) == None;
    assert WithFraction(Without(whole), after) == Numeral(text, 10, rest) by { assert text + [] == text; }
    assert text[|text| - 1] == '0';
  }

  lemma DotStops()
    ensures '.' !in DigitsOf(10) && !IsRadixMark('.')
  {}

  lemma NothingWithout(radix: Radix)
    ensures Without([]) == [] && Digital(radix, [])
  {}

  lemma WithoutFirst(whole: string)
    requires Leads(whole)
    ensures Without(whole) == [whole[0]] + Without(whole[1..]) && Digital(10, whole[1..])
  {
    RadixDigits(10, whole[0]);
  }

  // ---- hexadecimal, octal and binary numerals ----

  function RadixMarked(mark: char): Radix {
    match mark
    case 'x' => 16 case 'X' => 16
    case 'o' => 8 case 'O' => 8
    case _ => 2
  }

  // Exactly the digits of the radix that the mark names are taken. The numeral is malformed if there
  // are none or if it takes more than 64 bits.
  lemma RadixRead(mark: char, w: string, rest: string)
    requires IsRadixMark(mark) && Digital(RadixMarked(mark), w) && Stops(RadixMarked(mark), rest)
    ensures ReadNumber(false, "0" + ([mark] + (w + rest)))
         == if Without(w) != [] && RadixValue(RadixMarked(mark), Without(w)) < 0x1_0000_0000_0000_0000
            then Read(TNumber("0" + ([mark] + Without(w))), None, rest) else Faulty
  {
    hide TakeDigits, DigitsOf, Without, Digital, RadixValue, IsRadixDigit, WithFraction;
    var radix := RadixMarked(mark);
    var after := [mark] + (w + rest);
    var s := "0" + after;
    assert s[0] == '0' && s[1..] == after && after[0] == mark && after[1..] == w + rest;
    RadixDigits(10, mark);
    NothingWithout(10);
    assert !IsDigit(mark) && "0" + [] == "0" && [] + after == after;
    TakenExactly(10, [], after);
    TakenExactly(radix, w, rest);
    RadixText(radix, w);
    var text := "0" + [mark] + Without(w);
    assert text[2..] == Without(w) && text == "0" + ([mark] + Without(w));
  }

  lemma RadixText(radix: Radix, w: string)
    requires Digital(radix, w)
    ensures forall c | c in Without(w) :: IsRadixDigit(radix, c)
  {
    hide Digital, Without, DigitsOf, IsRadixDigit;
    WithoutDigital(radix, w);
    forall c | c in Without(w)
      ensures IsRadixDigit(radix, c)
    {
      RadixDigits(radix, c);
    }
  }

  function Power(b: nat, n: nat): nat {
    if n == 0 then 1 else Power(b, n - 1) * b
  }

  function DigitValue(c: char): nat {
    var digit := StringLiteral.Digit(c);
    if digit.Some? then digit.value else 0
  }

  predicate InRadix(radix: nat, s: string) {
    forall c | c in s :: DigitValue(c) < radix
  }

  // The first digit bounds the value from below and from above.
  lemma {:induction false} ValueBounds(radix: nat, s: string)
    requires s != [] && InRadix(radix, s)
    ensures var d, p := DigitValue(s[0]), Power(radix, |s| - 1);
      d * p <= RadixValue(radix, s) < (d + 1) * p
  {
    var front, last := s[..|s| - 1], s[|s| - 1];
    assert last in s;
    if |s| == 1 {
      assert RadixValue(radix, front) == 0;
    } else {
      ValueBounds(radix, front);
      var d, p, v, x := DigitValue(s[0]), Power(radix, |s| - 2), RadixValue(radix, front), DigitValue(last);
      assert RadixValue(radix, s) == v * radix + x;
      Scaled(d, p, v, radix, x);
      assert Power(radix, |s| - 1) == p * radix;
    }
  }

  lemma Times(a: nat, b: nat, c: nat)
    requires a <= b
    ensures a * c <= b * c
  {}

  lemma Grouped(a: nat, b: nat, c: nat)
    ensures a * (b * c) == (a * b) * c
  {}

  lemma NextTimes(v: nat, radix: nat)
    ensures (v + 1) * radix == v * radix + radix
  {}

  lemma Scaled(d: nat, p: nat, v: nat, radix: nat, x: nat)
    requires d * p <= v < (d + 1) * p && x < radix
    ensures d * (p * radix) <= v * radix + x < (d + 1) * (p * radix)
  {
    Grouped(d, p, radix);
    Grouped(d + 1, p, radix);
    Times(d * p, v, radix);
    Times(v + 1, (d + 1) * p, radix);
    NextTimes(v, radix);
  }

  lemma {:induction false} PowerSum(b: nat, m: nat, n: nat)
    ensures Power(b, m + n) == Power(b, m) * Power(b, n)
  {
    if n > 0 {
      PowerSum(b, m, n - 1);
      assert Power(b, m) * (Power(b, n - 1) * b) == (Power(b, m) * Power(b, n - 1)) * b;
    }
  }

  lemma {:induction false} PowerGrows(b: nat, m: nat, n: nat)
    requires b > 0 && m <= n
    ensures 0 < Power(b, m) <= Power(b, n)
    decreases n
  {
    if n > m {
      PowerGrows(b, m, n - 1);
      Times(1, b, Power(b, n - 1));
    } else if m > 0 {
      PowerGrows(b, m - 1, m - 1);
      Times(1, b, Power(b, m - 1));
    }
  }

  // 64 bits are 16 hexadecimal digits, or 21 octal digits and a bit, or 64 binary digits.
  lemma Sixty4()
    ensures Power(16, 16) == 0x1_0000_0000_0000_0000
    ensures 2 * Power(8, 21) == 0x1_0000_0000_0000_0000
    ensures Power(2, 64) == 0x1_0000_0000_0000_0000
  {
    assert Power(2, 2) == 4 && Power(2, 4) == 16 by { PowerSum(2, 2, 2); }
    PowerSum(2, 4, 4);
    PowerSum(2, 8, 8);
    PowerSum(2, 16, 16);
    PowerSum(2, 32, 32);
    assert Power(16, 2) == 256;
    PowerSum(16, 2, 2);
    PowerSum(16, 4, 4);
    PowerSum(16, 8, 8);
    assert Power(8, 2) == 64 && Power(8, 3) == 512;
    PowerSum(8, 2, 3);
    PowerSum(8, 5, 5);
    PowerSum(8, 10, 10);
    PowerSum(8, 20, 1);
    assert Power(8, 1) == 8;
  }

  // Leading zeros change nothing.
  lemma {:induction false} LeadingZero(radix: nat, s: string)
    ensures RadixValue(radix, "0" + s) == RadixValue(radix, s)
  {
    var t := "0" + s;
    if s == [] {
      assert t[..0] == [];
    } else {
      LeadingZero(radix, s[..|s| - 1]);
      assert t[..|t| - 1] == "0" + s[..|s| - 1];
    }
  }

  lemma DigitRange(radix: Radix, c: char)
    requires radix != 10 && c in DigitsOf(radix)
    ensures DigitValue(c) < radix && (c == '0' <==> DigitValue(c) == 0) && (c == '1' <==> DigitValue(c) == 1)
  {
    RadixDigits(radix, c);
  }

  // A number of `n` digits, the first of which is `d`, against a bound that has `m` digits.
  lemma Beyond(radix: nat, d: nat, n: nat, m: nat, v: nat)
    requires radix > 0 && n >= 1 && d >= 1 && d < radix
    requires d * Power(radix, n - 1) <= v < (d + 1) * Power(radix, n - 1)
    ensures n <= m ==> v < Power(radix, m)
    ensures n > m ==> v >= Power(radix, m)
  {
    var p := Power(radix, n - 1);
    if n <= m {
      PowerGrows(radix, n, m);
      Times(d + 1, radix, p);
      assert Power(radix, n) == p * radix;
    } else {
      PowerGrows(radix, m, n - 1);
      Times(1, d, p);
    }
  }

  // Without leading zeros, a numeral takes at most 64 bits exactly if it has no more digits than that.
  lemma FitsExactly(radix: Radix, s: string)
    requires radix != 10 && s != [] && s[0] != '0' && forall c | c in s :: c in DigitsOf(radix)
    ensures RadixValue(radix, s) < 0x1_0000_0000_0000_0000 <==>
      match radix
      case 16 => |s| <= 16
      case 8 => |s| <= 21 || (|s| == 22 && s[0] == '1')
      case _ => |s| <= 64
  {
    hide DigitsOf, DigitValue, RadixValue, Power;
    forall c | c in s
      ensures DigitValue(c) < radix
    {
      DigitRange(radix, c);
    }
    assert s[0] in s;
    DigitRange(radix, s[0]);
    ValueBounds(radix, s);
    Sixty4();
    var d, v, n := DigitValue(s[0]), RadixValue(radix, s), |s|;
    if radix == 8 {
      Beyond(8, d, n, 21, v);
      if n == 22 {
        assert d >= 2 ==> 2 * Power(8, 21) <= d * Power(8, 21);
      } else if n > 22 {
        Beyond(8, d, n, 22, v);
        PowerNext(8, 21);
      }
    } else {
      Beyond(radix, d, n, if radix == 16 then 16 else 64, v);
    }
  }

  lemma PowerNext(b: nat, n: nat)
    ensures Power(b, n + 1) == Power(b, n) * b
  {}

  // ---- numbers among other tokens ----

  lemma NumberHere(blocked: bool, column: nat, negated: bool, w: Written, rest: string)
    requires WellWritten(w) && Ends(w, rest) && !(negated && blocked)
    ensures ReadToken(blocked, column, Signed(negated, Spelled(w)) + rest)
         == Read(TNumber(Signed(negated, Meant(w))), None, rest)
  {
    hide FractionText, ExponentText, DigitsOf, Digital, Without, WellExponent, Ends, Meant, ReadNumber;
    NumeralRead(negated, w, rest);
    var s := Spelled(w) + rest;
    RadixDigits(10, w.whole[0]);
    assert s[0] == w.whole[0];
    var t := Signed(negated, Spelled(w)) + rest;
    if negated { assert t == "-" + s && t[0] == '-' && t[1] == s[0] && t[1..] == s; }
    ReadCases(blocked, column, t);
  }

  lemma NumberThen(turn: Turn, resumes: nat -> bool, columns: nat -> nat, negated: bool, w: Written, rest: string)
    requires WellWritten(w) && Ends(w, rest) && !turn.inText && !(negated && turn.blocked)
    ensures AllTokens(turn, resumes, columns, Signed(negated, Spelled(w)) + rest)
         == [TNumber(Signed(negated, Meant(w)))] + AllTokens(Turn(false, true, turn.count + 1), resumes, columns, rest)
  {
    hide WellWritten, Ends, ReadToken, Spelled, Meant, Signed, AllTokens;
    NumberHere(turn.blocked, columns(turn.count), negated, w, rest);
    TokensStep(turn, resumes, columns, Signed(negated, Spelled(w)) + rest);
  }

  lemma TextThen(turn: Turn, resumes: nat -> bool, columns: nat -> nat, t: Compaction.TokenText, rest: string)
    requires Compaction.Apart(t, rest) && !turn.inText && t != "}"
    ensures AllTokens(turn, resumes, columns, t + rest)
         == [TText(t)] + AllTokens(Turn(false, !IsNextUnary(TText(t)), turn.count + 1), resumes, columns, rest)
  {
    hide ReadToken, Compaction.Apart, IsNextUnary, NextText, AllTokens, Compaction.IsToken;
    Compaction.TokenRead(t, rest);
    ReadsText(turn.blocked, columns(turn.count), t + rest);
    TokensStep(turn, resumes, columns, t + rest);
  }

  lemma Together<T>(x: T, y: T, z: T, rest: seq<T>)
    ensures [x] + ([y] + ([z] + rest)) == [x, y, z] + rest
  {}

  function Dots(inclusive: bool): string {
    if inclusive then "..=" else ".."
  }

  lemma DotsApart(inclusive: bool, rest: string)
    requires rest != [] && rest[0] != '=' && rest[0] != '.'
    ensures Compaction.IsToken(Dots(inclusive)) && Compaction.Apart(Dots(inclusive), rest)
    ensures IsNextUnary(TText(Dots(inclusive)))
  {}

  // A number ends before two periods.
  lemma EndsAtDots(w: Written, inclusive: bool, rest: string)
    requires WellWritten(w)
    ensures Ends(w, Dots(inclusive) + rest)
  {
    var s := Dots(inclusive) + rest;
    assert s[0] == '.' && s[1] == '.';
    DotStops();
  }

  lemma Unsigned(text: string)
    ensures Signed(false, text) == text
  {}

  lemma NumberStart(negated: bool, w: Written, rest: string)
    requires WellWritten(w)
    ensures var s := Signed(negated, Spelled(w)) + rest; s != [] && s[0] != '=' && s[0] != '.'
  {
    hide DigitsOf, Digital, WellExponent, FractionText, ExponentText;
    RadixDigits(10, w.whole[0]);
    assert Spelled(w)[0] == w.whole[0] && IsDigit(w.whole[0]);
  }

  // A range between two numbers is three tokens, the sign of the second one included.
  lemma RangeTokens(turn: Turn, resumes: nat -> bool, columns: nat -> nat, a: Written, inclusive: bool,
                    negated: bool, b: Written, rest: string)
    requires WellWritten(a) && WellWritten(b) && Ends(b, rest) && !turn.inText
    ensures AllTokens(turn, resumes, columns, Spelled(a) + (Dots(inclusive) + (Signed(negated, Spelled(b)) + rest)))
         == [TNumber(Meant(a)), TText(Dots(inclusive)), TNumber(Signed(negated, Meant(b)))]
            + AllTokens(Turn(false, true, turn.count + 3), resumes, columns, rest)
  {
    hide WellWritten, Spelled, Ends, Meant, Signed, Dots, IsNextUnary, AllTokens, Compaction.IsToken, Compaction.Apart;
    var second := Signed(negated, Spelled(b)) + rest;
    Unsigned(Spelled(a));
    Unsigned(Meant(a));
    NumberStart(negated, b, rest);
    EndsAtDots(a, inclusive, second);
    NumberThen(turn, resumes, columns, false, a, Dots(inclusive) + second);
    DotsApart(inclusive, second);
    TextThen(Turn(false, true, turn.count + 1), resumes, columns, Dots(inclusive), second);
    NumberThen(Turn(false, false, turn.count + 2), resumes, columns, negated, b, rest);
    Together(TNumber(Meant(a)), TText(Dots(inclusive)), TNumber(Signed(negated, Meant(b))),
             AllTokens(Turn(false, true, turn.count + 3), resumes, columns, rest));
  }

  // A property or method of a number is not a fraction.
  lemma MethodTokens(turn: Turn, resumes: nat -> bool, columns: nat -> nat, a: Written, name: Compaction.TokenText, rest: string)
    requires WellWritten(a) && Compaction.IsWord(name) && Compaction.Apart(name, rest) && !turn.inText
    ensures AllTokens(turn, resumes, columns, Spelled(a) + ("." + (name + rest)))
         == [TNumber(Meant(a)), TText("."), TText(name)]
            + AllTokens(Turn(false, !IsNextUnary(TText(name)), turn.count + 3), resumes, columns, rest)
  {
    hide WellWritten, Meant, IsNextUnary, AllTokens, Compaction.IsToken, Compaction.Apart;
    var after := name + rest;
    assert after[0] == name[0];
    EndsAtName(a, after);
    NumberThen(turn, resumes, columns, false, a, "." + after);
    DotApart(after);
    TextThen(Turn(false, true, turn.count + 1), resumes, columns, ".", after);
    WordNotBrace(name);
    TextThen(Turn(false, !IsNextUnary(TText(".")), turn.count + 2), resumes, columns, name, rest);
  }

  lemma WordNotBrace(name: string)
    requires Compaction.IsWord(name)
    ensures name != "}"
  {}

  lemma EndsAtName(w: Written, after: string)
    requires WellWritten(w) && after != [] && IsIdStart(after[0])
    ensures Ends(w, "." + after)
  {
    var s := "." + after;
    assert s[0] == '.' && s[1] == after[0];
    DotStops();
  }

  lemma DotApart(after: string)
    requires after != [] && IsIdStart(after[0])
    ensures Compaction.IsToken(".") && Compaction.Apart(".", after)
  {}

  lemma FractionSpelled(a: string, b: string, rest: string)
    ensures Spelled(Written(a, Some(b), None)) + rest == a + ("." + (b + rest))
  {
    var p := ".";
    assert (p + b) + "" == p + b;
    assert (a + (p + b)) + rest == a + (p + (b + rest));
  }

  // A number with a fraction is one token.
  lemma FractionToken(turn: Turn, resumes: nat -> bool, columns: nat -> nat, a: string, b: string, rest: string)
    requires Leads(a) && Leads(b) && Stops(10, rest) && NoExponent(rest) && !turn.inText
    ensures AllTokens(turn, resumes, columns, a + ("." + (b + rest)))
         == [TNumber(Without(a) + ("." + Without(b)))] + AllTokens(Turn(false, true, turn.count + 1), resumes, columns, rest)
  {
    hide AllTokens, Leads, Stops, NoExponent, Without, DigitsOf, Digital;
    var w := Written(a, Some(b), None);
    assert ("." + b) + "" == "." + b && ("." + Without(b)) + "" == "." + Without(b);
    FractionSpelled(a, b, rest);
    NumberThen(turn, resumes, columns, false, w, rest);
  }
}
