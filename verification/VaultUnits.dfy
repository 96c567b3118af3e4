/** Amounts as a user writes and reads them (client/src/lib/liquidity-vault.ts:108-130). */
module VaultUnits {
  import opened Common
  import opened Digits

  const SCALE: int := 10_000_000
  const MAX_I128: int := 170141183460469231731687303715884105727

  const MINUS: char := '\U{2212}'

  predicate IsDigit(c: char) {
    '0' <= c <= '9'
  }

  predicate AllDigits(s: string) {
    forall i | 0 <= i < |s| :: IsDigit(s[i])
  }

  function Numerals(s: string): (ds: seq<nat>)
    requires AllDigits(s)
    ensures AreDigits(ds, 10)
  {
    seq(|s|, i requires 0 <= i < |s| => s[i] as int - '0' as int)
  }

  /** The number a text of digits stands for. */
  function Value(s: string): nat
    requires AllDigits(s)
  {
    FromDigits(Numerals(s), 10)
  }

  function Numeral(n: nat): (s: string)
    requires n < 10
    ensures |s| == 1 && IsDigit(s[0]) && Numerals(s) == [n]
  {
    [('0' as int + n) as char]
  }

  /** The text of a number: no leading zero. */
  function Decimal(n: nat): (s: string)
    ensures s != "" && AllDigits(s)
  {
    if n < 10 then Numeral(n) else Decimal(n / 10) + Numeral(n % 10)
  }

  function PadStart(s: string, n: nat): (padded: string)
    requires AllDigits(s)
    ensures AllDigits(padded) && |padded| == if |s| < n then n else |s|
    decreases n - |s|
  {
    if |s| >= n then s else PadStart("0" + s, n)
  }

  function PadEnd(s: string, n: nat): (padded: string)
    requires AllDigits(s)
    ensures AllDigits(padded) && |padded| == if |s| < n then n else |s|
    decreases n - |s|
  {
    if |s| >= n then s else PadEnd(s + "0", n)
  }

  // ----- Reading -----

  /** White space and line ends, as `trim` knows them. */
  predicate IsSpace(c: char) {
    var n := c as int;
    || 0x9 <= n <= 0xD || n == 0x20 || n == 0xA0 || n == 0x1680 || 0x2000 <= n <= 0x200A || n == 0x2028 || n == 0x2029
    || n == 0x202F || n == 0x205F || n == 0x3000 || n == 0xFEFF
  }

  function Trim(s: string): string {
    if s == "" then s
    else if IsSpace(s[0]) then Trim(s[1..])
    else if IsSpace(s[|s| - 1]) then Trim(s[..|s| - 1])
    else s
  }

  /** 0, or digits that do not start with 0. */
  predicate IsWhole(s: string) {
    s != "" && AllDigits(s) && (s[0] == '0' ==> |s| == 1)
  }

  /** Where the first point is, or the length of the text. */
  function FirstPoint(s: string): (k: nat)
    ensures k <= |s| && (k < |s| ==> s[k] == '.') && forall i | 0 <= i < k :: s[i] != '.'
  {
    if s == "" || s[0] == '.' then 0 else 1 + FirstPoint(s[1..])
  }

  function WholePart(s: string): string {
    s[..FirstPoint(s)]
  }

  function FractionPart(s: string): string {
    if FirstPoint(s) == |s| then "" else s[FirstPoint(s) + 1..]
  }

  /** The regular expression of the amount field. */
  predicate IsAmount(s: string) {
    && IsWhole(WholePart(s)) && AllDigits(FractionPart(s))
    && (FirstPoint(s) < |s| ==> 1 <= |FractionPart(s)| <= 7)
  }

  function UnitsOf(s: string): int
    requires IsAmount(s)
  {
    Value(WholePart(s)) * SCALE + Value(PadEnd(FractionPart(s), 7))
  }

  function ParseUnits(value: string): Result<int> {
    var s := Trim(value);
    if !IsAmount(s) then Err("Enter an amount with up to 7 decimal places")
    else if UnitsOf(s) <= 0 then Err("Amount must be greater than zero")
    else if UnitsOf(s) > MAX_I128 then Err("Amount is too large")
    else Ok(UnitsOf(s))
  }

  // ----- Writing -----

  /** English grouping: a comma before every three digits. */
  function Grouped(s: string): string {
    if |s| <= 3 then s else Grouped(s[..|s| - 3]) + "," + s[|s| - 3..]
  }

  /** The worth of the last digit shown. */
  function UnitShown(digits: nat): (unit: nat)
    requires digits <= 7
    ensures unit > 0
  {
    Pow(10, 7 - digits)
  }

  /** An amount rounded half away from zero, in the last digit shown. */
  function Rounded(amount: nat, digits: nat): nat
    requires digits <= 7
  {
    Quotient(amount + UnitShown(digits) / 2, UnitShown(digits))
  }

  /** A whole part, and a fraction of so many digits. */
  function Text(whole: nat, fraction: nat, digits: nat): string {
    Grouped(Decimal(whole)) + "." + PadStart(Decimal(fraction), digits)
  }

  /** So many units of the last digit shown. */
  function Plain(rounded: nat, digits: nat): string {
    var whole := Quotient(rounded, Pow(10, digits));
    Text(whole, rounded - whole * Pow(10, digits), digits)
  }

  function FormatUnits(value: int, digits: nat): string
    requires digits <= 7
  {
    var text := Plain(Rounded(Abs(value), digits), digits);
    if value < 0 then [MINUS] + text else text
  }

  // ----- Digits and their value -----

  lemma {:induction false} ValueJoins(a: string, b: string)
    requires AllDigits(a) && AllDigits(b)
    ensures Value(a + b) == Value(a) * Pow(10, |b|) + Value(b)
  {
    if b == "" {
      assert a + b == a;
    } else {
      var front, last := b[..|b| - 1], Numerals(b)[|b| - 1];
      ValueJoins(a, front);
      assert Numerals(a + b)[..|a + b| - 1] == Numerals(a + front);
      assert Numerals(b)[..|b| - 1] == Numerals(front);
      assert Pow(10, |b|) == 10 * Pow(10, |front|);
      assert Value(a + b) == (Value(a) * Pow(10, |front|) + Value(front)) * 10 + last;
      assert Value(a) * Pow(10, |front|) * 10 == Value(a) * Pow(10, |b|);
    }
  }

  lemma ValueOfDigit(n: nat)
    requires n < 10
    ensures Value(Numeral(n)) == n
  {
    var ds := Numerals(Numeral(n));
    assert ds == [n] && ds[..0] == [];
    assert FromDigits(ds, 10) == FromDigits(ds[..0], 10) * 10 + n;
  }

  /** A number is written without a leading zero and reads as itself. */
  lemma {:induction false} DecimalReads(n: nat)
    ensures IsWhole(Decimal(n)) && Value(Decimal(n)) == n
    ensures n > 0 ==> Decimal(n)[0] != '0'
  {
    if n < 10 {
      ValueOfDigit(n);
    } else {
      DecimalReads(n / 10);
      ValueOfDigit(n % 10);
      ValueJoins(Decimal(n / 10), Numeral(n % 10));
      assert Pow(10, 1) == 10 * Pow(10, 0);
    }
  }

  /** A whole part is how its own value is written. */
  lemma {:induction false} WholeIsDecimal(s: string)
    requires IsWhole(s)
    ensures Decimal(Value(s)) == s
  {
    var front, last := s[..|s| - 1], Numerals(s)[|s| - 1];
    assert s == front + Numeral(last);
    assert Numerals(s)[..|s| - 1] == Numerals(front);
    if front != "" {
      WholeIsDecimal(front);
      assert Value(front) > 0;
      QuotientUnique(Value(front) * 10 + last, 10, Value(front));
    }
  }

  lemma {:induction false} DecimalLength(n: nat, k: nat)
    requires k > 0 && n < Pow(10, k)
    ensures |Decimal(n)| <= k
  {
    if n >= 10 {
      assert Pow(10, k) == 10 * Pow(10, k - 1);
      DecimalLength(n / 10, k - 1);
    }
  }

  lemma {:induction false} PadStartReads(s: string, n: nat)
    requires AllDigits(s)
    ensures Value(PadStart(s, n)) == Value(s)
    decreases n - |s|
  {
    if |s| < n {
      PadStartReads("0" + s, n);
      ValueOfDigit(0);
      ValueJoins("0", s);
    }
  }

  lemma {:induction false} PadEndReads(s: string, n: nat)
    requires AllDigits(s) && |s| <= n
    ensures Value(PadEnd(s, n)) == Value(s) * Pow(10, n - |s|)
    decreases n - |s|
  {
    if |s| < n {
      PadEndReads(s + "0", n);
      ValueOfDigit(0);
      ValueJoins(s, "0");
      assert Pow(10, 1) == 10 * Pow(10, 0);
      assert Pow(10, n - |s|) == 10 * Pow(10, n - |s| - 1);
      assert Value(s) * 10 * Pow(10, n - |s| - 1) == Value(s) * (10 * Pow(10, n - |s| - 1));
    }
  }

  // ----- What was formatted and is read again -----

  lemma TrimStays(s: string)
    requires s != "" && !IsSpace(s[0]) && !IsSpace(s[|s| - 1])
    ensures Trim(s) == s
  {
  }

  /** The parts of a text around its first point. */
  lemma {:induction false} PointSplits(a: string, b: string)
    requires forall i | 0 <= i < |a| :: a[i] != '.'
    ensures FirstPoint(a + "." + b) == |a|
    ensures WholePart(a + "." + b) == a && FractionPart(a + "." + b) == b
  {
    var s := a + "." + b;
    if a != "" {
      assert s[1..] == a[1..] + "." + b;
      PointSplits(a[1..], b);
    }
  }

  /** More than three digits get a comma and no point. */
  lemma {:induction false} GroupedText(s: string)
    requires AllDigits(s) && s != ""
    ensures Grouped(s) != "" && IsDigit(Grouped(s)[0]) && forall i | 0 <= i < |Grouped(s)| :: Grouped(s)[i] != '.'
    ensures |s| > 3 ==> ',' in Grouped(s)
  {
    if |s| > 3 { GroupedText(s[..|s| - 3]); }
  }

  /** A whole that is grouped or signed is not read; one below a thousand is. */
  lemma WholeRead(whole: nat)
    ensures IsWhole(Grouped(Decimal(whole))) <==> whole < 1000
    ensures whole < 1000 ==> Grouped(Decimal(whole)) == Decimal(whole)
  {
    DecimalReads(whole);
    assert Pow(10, 3) == 10 * Pow(10, 2) && Pow(10, 2) == 10 * Pow(10, 1) && Pow(10, 1) == 10 * Pow(10, 0);
    if whole < 1000 {
      DecimalLength(whole, 3);
    } else {
      LongEnough(whole, 3);
      GroupedText(Decimal(whole));
    }
  }

  lemma {:induction false} LongEnough(n: nat, k: nat)
    requires Pow(10, k) <= n
    ensures |Decimal(n)| > k
  {
    if k > 0 {
      assert Pow(10, k) == 10 * Pow(10, k - 1);
      LongEnough(n / 10, k - 1);
    }
  }

  lemma {:induction false} PowersJoin(a: nat, b: nat)
    ensures Pow(10, a) * Pow(10, b) == Pow(10, a + b)
  {
    if a > 0 {
      PowersJoin(a - 1, b);
      assert 10 * Pow(10, a - 1) * Pow(10, b) == 10 * (Pow(10, a - 1) * Pow(10, b));
    }
  }

  lemma ScaleIsPower()
    ensures Pow(10, 7) == SCALE
  {
    assert Pow(10, 3) == 10 * Pow(10, 2) && Pow(10, 2) == 10 * Pow(10, 1) && Pow(10, 1) == 10 * Pow(10, 0);
    PowersJoin(3, 3);
    PowersJoin(1, 6);
  }

  lemma FractionRead(f: nat, digits: nat)
    requires digits <= 7 && f < Pow(10, digits)
    ensures var t := PadStart(Decimal(f), digits);
      1 <= |t| <= 7 && Value(PadEnd(t, 7)) == f * UnitShown(digits)
  {
    var t := PadStart(Decimal(f), digits);
    DecimalReads(f);
    PadStartReads(Decimal(f), digits);
    if digits > 0 { DecimalLength(f, digits); }
    PadEndReads(t, 7);
  }

  /** The units read from a whole part and a fraction of so many digits. */
  lemma UnitsJoin(rounded: nat, digits: nat)
    requires digits <= 7
    ensures var whole := Quotient(rounded, Pow(10, digits));
      whole * SCALE + (rounded - whole * Pow(10, digits)) * UnitShown(digits) == rounded * UnitShown(digits)
  {
    var whole, unit := Quotient(rounded, Pow(10, digits)), UnitShown(digits);
    PowersJoin(digits, 7 - digits);
    ScaleIsPower();
    Regroup(rounded, whole, Pow(10, digits), unit);
  }

  lemma Regroup(total: int, whole: int, base: int, unit: int)
    ensures whole * (base * unit) + (total - whole * base) * unit == total * unit
  {
    assert (total - whole * base) * unit == total * unit - whole * base * unit;
    assert whole * (base * unit) == whole * base * unit;
  }

  /** A text of something, a point and some digits. */
  lemma TextParts(shown: string, t: string)
    requires shown != "" && !IsSpace(shown[0]) && forall i | 0 <= i < |shown| :: shown[i] != '.'
    requires 1 <= |t| <= 7 && AllDigits(t)
    ensures var text := shown + "." + t;
      && Trim(text) == text && WholePart(text) == shown && FractionPart(text) == t
      && (IsAmount(text) <==> IsWhole(shown))
  {
    var text := shown + "." + t;
    PointSplits(shown, t);
    assert text[|text| - 1] == t[|t| - 1];
    TrimStays(text);
  }

  /** Which formatted texts the amount field takes, and as what. */
  lemma TextRead(whole: nat, fraction: nat, digits: nat)
    requires digits <= 7 && fraction < Pow(10, digits)
    ensures var text := Text(whole, fraction, digits);
      && Trim(text) == text && (IsAmount(text) <==> whole < 1000)
      && (IsAmount(text) ==> UnitsOf(text) == whole * SCALE + fraction * UnitShown(digits))
  {
    FractionRead(fraction, digits);
    GroupedText(Decimal(whole));
    WholeRead(whole);
    DecimalReads(whole);
    TextParts(Grouped(Decimal(whole)), PadStart(Decimal(fraction), digits));
  }

  lemma SignRefused(sign: char, shown: string, t: string)
    requires !IsDigit(sign) && !IsSpace(sign) && sign != '.'
    requires forall i | 0 <= i < |shown| :: shown[i] != '.'
    requires 1 <= |t| <= 7 && AllDigits(t)
    ensures !IsAmount(Trim([sign] + (shown + "." + t)))
  {
    var signed := [sign] + shown;
    assert [sign] + (shown + "." + t) == signed + "." + t;
    assert signed[0] == sign;
    TextParts(signed, t);
  }

  lemma NegativeRefused(whole: nat, fraction: nat, digits: nat)
    requires digits <= 7 && fraction < Pow(10, digits)
    ensures ParseUnits([MINUS] + Text(whole, fraction, digits)).Err?
  {
    FractionRead(fraction, digits);
    GroupedText(Decimal(whole));
    SignRefused(MINUS, Grouped(Decimal(whole)), PadStart(Decimal(fraction), digits));
  }

  lemma ReadAs(text: string, units: int)
    requires IsAmount(Trim(text)) && UnitsOf(Trim(text)) == units
    ensures ParseUnits(text).Ok? <==> 0 < units <= MAX_I128
    ensures ParseUnits(text).Ok? ==> ParseUnits(text).value == units
  {
  }

  /** A text is read exactly if it shows something below a thousand, and as what it shows. */
  ghost predicate ReadsBack(text: string, rounded: nat, digits: nat)
    requires digits <= 7
  {
    && (ParseUnits(text).Ok? <==> 0 < rounded < 1000 * Pow(10, digits))
    && (ParseUnits(text).Ok? ==> ParseUnits(text).value == rounded * UnitShown(digits))
  }

  lemma PlainRead(rounded: nat, digits: nat)
    requires digits <= 7
    ensures ReadsBack(Plain(rounded, digits), rounded, digits)
  {
    var whole := Quotient(rounded, Pow(10, digits));
    var fraction := rounded - whole * Pow(10, digits);
    TextRead(whole, fraction, digits);
    AtMostQuotient(1000, rounded, Pow(10, digits));
    if whole < 1000 {
      UnitsJoin(rounded, digits);
      AmountBounds(rounded, digits);
      ReadAs(Text(whole, fraction, digits), rounded * UnitShown(digits));
    }
  }

  lemma NegativeRead(rounded: nat, digits: nat)
    requires digits <= 7
    ensures ParseUnits([MINUS] + Plain(rounded, digits)).Err?
  {
    var whole := Quotient(rounded, Pow(10, digits));
    NegativeRefused(whole, rounded - whole * Pow(10, digits), digits);
  }

  /**
   What is formatted is read again exactly if it is positive and shows fewer than a
   thousand: grouped thousands and a sign are refused.  What is read is the rounded amount.
   */
  lemma {:induction false} ParseFormatted(value: int, digits: nat)
    requires digits <= 7
    ensures value < 0 ==> ParseUnits(FormatUnits(value, digits)).Err?
    ensures value >= 0 ==> ReadsBack(FormatUnits(value, digits), Rounded(value, digits), digits)
  {
    var rounded := Rounded(Abs(value), digits);
    if value < 0 {
      NegativeRead(rounded, digits);
      assert FormatUnits(value, digits) == [MINUS] + Plain(rounded, digits);
    } else {
      PlainRead(rounded, digits);
      assert FormatUnits(value, digits) == Plain(rounded, digits);
    }
  }

  lemma AmountBounds(rounded: nat, digits: nat)
    requires digits <= 7
    ensures rounded < 1000 * Pow(10, digits) ==> rounded * UnitShown(digits) < 1000 * SCALE
    ensures rounded * UnitShown(digits) > 0 <==> rounded > 0
  {
    var unit := UnitShown(digits);
    PowersJoin(digits, 7 - digits);
    ScaleIsPower();
    if rounded < 1000 * Pow(10, digits) {
      MulStrict(rounded, 1000 * Pow(10, digits), unit);
      Regroup(1000 * Pow(10, digits), 1000, Pow(10, digits), unit);
    }
    if rounded > 0 { MulStrict(0, rounded, unit); }
  }

  /** Rounding moves an amount by at most half of the last digit shown, and a half goes up. */
  lemma RoundedNearest(amount: nat, digits: nat)
    requires digits <= 7
    ensures var unit: int := UnitShown(digits);
      -unit < 2 * (Rounded(amount, digits) * unit - amount) <= unit
  {
    if digits < 7 { assert UnitShown(digits) == 10 * Pow(10, 6 - digits); }
  }

  lemma NothingRounded(amount: nat)
    ensures Rounded(amount, 7) == amount && UnitShown(7) == 1
  {
  }

  /** With all seven digits shown, reading gives back the very amount. */
  lemma ParseFormattedExactly(value: int)
    ensures ParseUnits(FormatUnits(value, 7)).Ok? <==> 0 < value < 1000 * SCALE
    ensures ParseUnits(FormatUnits(value, 7)).Ok? ==> ParseUnits(FormatUnits(value, 7)).value == value
  {
    ParseFormatted(value, 7);
    if value >= 0 {
      NothingRounded(value);
      ScaleIsPower();
      assert ReadsBack(FormatUnits(value, 7), value, 7);
    }
  }

  // ----- What was read and is formatted again -----

  /** The amount a user wrote, with all seven digits after the point. */
  function Completed(s: string): string
    requires IsAmount(s)
  {
    WholePart(s) + "." + PadEnd(FractionPart(s), 7)
  }

  /** A text that is read is determined by what it reads as, up to zeros at its end. */
  lemma ReadDetermines(s: string)
    requires IsAmount(s)
    ensures var units := UnitsOf(s);
      units >= 0 && Completed(s) == Decimal(Quotient(units, SCALE)) + "." + PadStart(Decimal(units % SCALE), 7)
  {
    var w, f := WholePart(s), PadEnd(FractionPart(s), 7);
    ScaleIsPower();
    FromDigitsBound(Numerals(f), 10);
    QuotientUnique(UnitsOf(s), SCALE, Value(w));
    WholeIsDecimal(w);
    SamePadded(f);
  }

  lemma SamePadded(f: string)
    requires AllDigits(f) && |f| == 7
    ensures PadStart(Decimal(Value(f)), 7) == f
  {
    FromDigitsBound(Numerals(f), 10);
    var t := PadStart(Decimal(Value(f)), 7);
    DecimalReads(Value(f));
    DecimalLength(Value(f), 7);
    PadStartReads(Decimal(Value(f)), 7);
    SameValueSameDigits(Numerals(t), Numerals(f), 10);
    SameNumerals(t, f);
  }

  lemma SameNumerals(a: string, b: string)
    requires AllDigits(a) && AllDigits(b) && Numerals(a) == Numerals(b)
    ensures a == b
  {
    forall i | 0 <= i < |a| ensures |b| == |a| && a[i] == b[i] {
      assert |Numerals(a)| == |Numerals(b)| && Numerals(a)[i] == Numerals(b)[i];
      assert a[i] as int == b[i] as int;
    }
    assert |Numerals(a)| == |a| && |Numerals(b)| == |b|;
  }

  /** Below a thousand, formatting what was read completes what the user wrote. */
  lemma FormatParsed(text: string)
    requires ParseUnits(text).Ok? && ParseUnits(text).value < 1000 * SCALE
    ensures FormatUnits(ParseUnits(text).value, 7) == Completed(Trim(text))
  {
    var units := ParseUnits(text).value;
    ReadDetermines(Trim(text));
    ScaleIsPower();
    assert UnitShown(7) == 1;
    assert Rounded(Abs(units), 7) == units;
    WholeRead(Quotient(units, SCALE));
  }

  /** Two texts are read as the same amount exactly if they differ in space around and zeros at the end. */
  lemma {:induction false} ParseInjective(a: string, b: string)
    requires ParseUnits(a).Ok? && ParseUnits(b).Ok?
    ensures ParseUnits(a).value == ParseUnits(b).value <==> Completed(Trim(a)) == Completed(Trim(b))
  {
    ReadDetermines(Trim(a));
    ReadDetermines(Trim(b));
    var x, y := Trim(a), Trim(b);
    if Completed(x) == Completed(y) {
      PointSplits(WholePart(x), PadEnd(FractionPart(x), 7));
      PointSplits(WholePart(y), PadEnd(FractionPart(y), 7));
      assert FractionPart(Completed(x)) == PadEnd(FractionPart(x), 7);
    }
  }
}
