/** internal/transfer/model/money.go: decimal euro amounts to integer cents and back. */
module Money {
  import opened Int64
  import opened Results

  datatype AmountError = BadFormat | NotPositive

  // ----- Decimal numerals -----

  predicate IsDigit(c: char) {
    '0' <= c <= '9'
  }

  predicate AllDigits(s: string) {
    forall i :: 0 <= i < |s| ==> IsDigit(s[i])
  }

  function DigitValue(c: char): (d: nat)
    requires IsDigit(c)
    ensures d <= 9 && DigitChar(d) == c
  {
    (c - '0') as int
  }

  function DigitChar(d: nat): (c: char)
    requires d <= 9
    ensures IsDigit(c)
  {
    '0' + d as char
  }

  /** The number a digit string denotes. */
  function Value(s: string): nat
    requires AllDigits(s)
  {
    if s == "" then 0 else 10 * Value(s[..|s| - 1]) + DigitValue(s[|s| - 1])
  }

  /** `%d` of a non-negative number. */
  function Decimal(n: nat): (s: string)
    ensures s != "" && AllDigits(s)
  {
    if n < 10 then [DigitChar(n)] else Decimal(n / 10) + [DigitChar(n % 10)]
  }

  /** A digit string without its leading zeros, keeping one digit. */
  function StripZeros(s: string): string {
    if |s| > 1 && s[0] == '0' then StripZeros(s[1..]) else s
  }

  /** `%02d` of a number below 100. */
  function TwoDigits(n: nat): (s: string)
    requires n < 100
    ensures |s| == 2 && AllDigits(s)
  {
    [DigitChar(n / 10), DigitChar(n % 10)]
  }

  lemma {:induction false} ValueOfDecimal(n: nat)
    ensures Value(Decimal(n)) == n
  {
    if n >= 10 {
      ValueOfDecimal(n / 10);
      assert Decimal(n)[..|Decimal(n)| - 1] == Decimal(n / 10);
    } else {
      assert Value([]) == 0;
      assert Decimal(n)[..0] == [];
    }
  }

  lemma {:induction false} StripSnoc(s: string, d: char)
    requires s != ""
    ensures StripZeros(s + [d]) == if StripZeros(s) == "0" then StripZeros([d]) else StripZeros(s) + [d]
  {
    if s[0] == '0' {
      assert (s + [d])[1..] == s[1..] + [d];
      if |s| > 1 {
        StripSnoc(s[1..], d);
      } else {
        assert s == "0";
      }
    }
  }

  /** Printing a number that was read drops the leading zeros and nothing else. */
  lemma {:induction false} DecimalOfValue(s: string)
    requires s != "" && AllDigits(s)
    ensures Decimal(Value(s)) == StripZeros(s)
    ensures Value(s) == 0 <==> StripZeros(s) == "0"
  {
    var t, d := s[..|s| - 1], s[|s| - 1];
    assert s == t + [d];
    if t == "" {
      assert Value(s) == DigitValue(d);
    } else {
      DecimalOfValue(t);
      StripSnoc(t, d);
    }
  }

  function Pow10(n: nat): nat {
    if n == 0 then 1 else 10 * Pow10(n - 1)
  }

  /** Digit strings are read in base ten, the most significant digit first. */
  lemma {:induction false} ValueConcat(s: string, t: string)
    requires AllDigits(s) && AllDigits(t)
    ensures AllDigits(s + t) && Value(s + t) == Value(s) * Pow10(|t|) + Value(t)
    ensures |t| == 1 ==> Value(t) == t[0] as int - '0' as int
  {
    if t == "" {
      assert s + t == s;
    } else {
      var n := |t| - 1;
      assert (s + t)[..|s + t| - 1] == s + t[..n];
      ValueConcat(s, t[..n]);
      TimesTen(Value(s), Pow10(n));
    }
  }

  lemma TimesTen(x: nat, y: nat)
    ensures x * (10 * y) == 10 * (x * y)
  {
  }

  // ----- Amount strings -----

  /** What strings.Cut(s, ".") splits off: the text up to the first point, and the rest. */
  datatype Split = Split(whole: string, frac: string, hasFrac: bool)

  function Cut(s: string): (p: Split)
    ensures '.' !in p.whole
    ensures s == if p.hasFrac then p.whole + "." + p.frac else p.whole
    ensures !p.hasFrac ==> p.frac == ""
  {
    if s == "" then Split("", "", false)
    else if s[0] == '.' then Split("", s[1..], true)
    else var p := Cut(s[1..]); Split([s[0]] + p.whole, p.frac, p.hasFrac)
  }

  /** Digits, then optionally a point with one or two digits. */
  predicate WellFormed(s: string) {
    var p := Cut(s);
    && p.whole != "" && AllDigits(p.whole)
    && (p.hasFrac ==> 1 <= |p.frac| <= 2 && AllDigits(p.frac))
  }

  function PadFrac(frac: string): string {
    if |frac| == 0 then "00" else if |frac| == 1 then frac + "0" else frac
  }

  /** The exact number of cents an amount string denotes, as a mathematical integer. */
  function ExactCents(s: string): nat
    requires WellFormed(s)
  {
    100 * Value(Cut(s).whole) + Value(PadFrac(Cut(s).frac))
  }

  // ----- ParseAmountCents -----

  /** strconv.ParseInt(digits, 10, 63) refuses what does not fit a signed 63-bit integer. */
  const PARSE_LIMIT: int := 0x4000_0000_0000_0000

  /** What ParseAmountCents answers, in terms of the exact value of its input. */
  function Parsed(s: string): Result<int64, AmountError> {
    if !WellFormed(s) || Value(Cut(s).whole) >= PARSE_LIMIT then Err(BadFormat)
    else if Wrap(ExactCents(s)) <= 0 then Err(NotPositive)
    else Ok(Wrap(ExactCents(s)))
  }

  method IsDigits(s: string) returns (b: bool)
    ensures b <==> AllDigits(s)
  {
    for i := 0 to |s|
      invariant forall j :: 0 <= j < i ==> IsDigit(s[j])
    {
      if s[i] < '0' || s[i] > '9' {
        return false;
      }
    }
    return true;
  }

  /** Every product and sum wraps on its own; the answer is still the exact value wrapped once. */
  method ParseAmountCents(s: string) returns (r: Result<int64, AmountError>)
    ensures r == Parsed(s)
    ensures r == Err(BadFormat) <==> !WellFormed(s) || Value(Cut(s).whole) >= 4611686018427387904
  {
    var Split(whole, frac, hasFrac) := Cut(s);
    var wholeOk := IsDigits(whole);
    if whole == "" || !wholeOk {
      return Err(BadFormat);
    }
    var fracOk := IsDigits(frac);
    if hasFrac && (|frac| == 0 || |frac| > 2 || !fracOk) {
      return Err(BadFormat);
    }
    if Value(whole) >= PARSE_LIMIT {
      return Err(BadFormat);
    }
    var cents: int64 := Wrap(Value(whole) * 100);
    if hasFrac {
      ghost var given := frac;
      while |frac| < 2
        invariant AllDigits(frac) && 1 <= |frac| <= 2
        invariant PadFrac(frac) == PadFrac(given)
      {
        frac := frac + "0";
      }
      WrapSum(Value(whole) * 100, Value(frac));
      cents := Wrap(cents + Value(frac));
    } else {
      TwoDigitValue("00");
    }
    if cents <= 0 {
      return Err(NotPositive);
    }
    return Ok(cents);
  }

  lemma CutCons(c: char, s: string)
    requires c != '.'
    ensures Cut([c] + s) == Split([c] + Cut(s).whole, Cut(s).frac, Cut(s).hasFrac)
  {
    assert ([c] + s)[1..] == s;
  }

  lemma {:induction false} CutPlain(whole: string)
    requires '.' !in whole
    ensures Cut(whole) == Split(whole, "", false)
  {
    if whole != "" {
      CutPlain(whole[1..]);
    }
  }

  lemma HeadAndRest(s: string, t: string)
    requires s != ""
    ensures s == [s[0]] + s[1..] && s + t == [s[0]] + (s[1..] + t)
  {
  }

  lemma {:induction false} CutPointed(whole: string, tail: string)
    requires '.' !in whole && tail != "" && tail[0] == '.'
    ensures Cut(whole + tail) == Split(whole, tail[1..], true)
  {
    if whole == "" {
      assert whole + tail == tail;
    } else {
      CutPointed(whole[1..], tail);
      CutCons(whole[0], whole[1..] + tail);
      HeadAndRest(whole, tail);
    }
  }

  lemma CutJoined(whole: string, frac: string)
    requires '.' !in whole
    ensures Cut(whole + "." + frac) == Split(whole, frac, true)
  {
    var tail := "." + frac;
    CutPointed(whole, tail);
    assert whole + "." + frac == whole + tail;
    assert tail[1..] == frac;
  }

  predicate PointAt(s: string, w: nat) {
    && 0 < w < |s| && s[w] == '.' && AllDigits(s[..w])
    && 1 <= |s| - w - 1 <= 2 && AllDigits(s[w + 1..])
  }

  lemma PointedIsWellFormed(s: string, w: nat)
    requires PointAt(s, w)
    ensures WellFormed(s)
  {
    CutPointed(s[..w], s[w..]);
    assert s == s[..w] + s[w..];
    assert s[w..][1..] == s[w + 1..];
  }

  /** The accepted shape, without the splitting: digits, or digits "." one or two digits. */
  lemma AcceptedShape(s: string)
    ensures WellFormed(s) <==> (s != "" && AllDigits(s)) || exists w: nat :: PointAt(s, w)
  {
    var p := Cut(s);
    if s != "" && AllDigits(s) {
      CutPlain(s);
    }
    forall w: nat | PointAt(s, w) ensures WellFormed(s) {
      PointedIsWellFormed(s, w);
    }
    if WellFormed(s) && p.hasFrac {
      assert s[..|p.whole|] == p.whole && s[|p.whole| + 1..] == p.frac;
      assert PointAt(s, |p.whole|);
    }
  }

  lemma TwoDigitValue(f: string)
    requires |f| == 2 && AllDigits(f)
    ensures Value(f) == 10 * DigitValue(f[0]) + DigitValue(f[1])
    ensures Value(f) < 100 && TwoDigits(Value(f)) == f
  {
    assert f[..1] == [f[0]];
    assert [f[0]][..0] == "";
    assert Value([f[0]]) == DigitValue(f[0]);
  }

  lemma FracBelowHundred(s: string)
    requires WellFormed(s)
    ensures AllDigits(PadFrac(Cut(s).frac)) && Value(PadFrac(Cut(s).frac)) < 100
    ensures TwoDigits(Value(PadFrac(Cut(s).frac))) == PadFrac(Cut(s).frac)
  {
    TwoDigitValue(PadFrac(Cut(s).frac));
  }

  /** Exactness: no positive amount up to MaxInt64 cents is refused or read wrongly, and an
      accepted amount is read exactly if and only if its exact value fits an int64. */
  lemma ParserExact(s: string)
    requires WellFormed(s)
    ensures 0 < ExactCents(s) <= MAX ==> Parsed(s) == Ok(ExactCents(s))
    ensures ExactCents(s) == 0 ==> Parsed(s) == Err(NotPositive)
    ensures Parsed(s).Ok? ==> (ExactCents(s) - Parsed(s).value) % MODULUS == 0
    ensures Parsed(s).Ok? ==> (Parsed(s).value == ExactCents(s) <==> ExactCents(s) <= MAX)
  {
    FracBelowHundred(s);
  }

  /** What an amount string is worth, digit by digit: "14" is 1400 cents, "14.5" 1450, "14.05" 1405. */
  lemma CentsSpelled(s: string, w: nat)
    ensures s != "" && AllDigits(s) ==> WellFormed(s) && ExactCents(s) == 100 * Value(s)
    ensures PointAt(s, w) ==>
      && WellFormed(s)
      && ExactCents(s) == 100 * Value(s[..w]) + 10 * (s[w + 1] as int - '0' as int)
                          + if |s| == w + 3 then s[w + 2] as int - '0' as int else 0
  {
    if s != "" && AllDigits(s) {
      PlainCents(s);
    }
    if PointAt(s, w) {
      PointedCents(s, w);
      PadValue(s[w + 1..]);
    }
  }

  lemma PlainCents(s: string)
    requires s != "" && AllDigits(s)
    ensures WellFormed(s) && ExactCents(s) == 100 * Value(s)
  {
    CutPlain(s);
    TwoDigitValue("00");
  }

  lemma PointedCents(s: string, w: nat)
    requires PointAt(s, w)
    ensures WellFormed(s) && AllDigits(PadFrac(s[w + 1..]))
    ensures ExactCents(s) == 100 * Value(s[..w]) + Value(PadFrac(s[w + 1..]))
  {
    PointedIsWellFormed(s, w);
    CutPointed(s[..w], s[w..]);
    assert s == s[..w] + s[w..] && s[w..][1..] == s[w + 1..];
  }

  lemma PadValue(frac: string)
    requires 1 <= |frac| <= 2 && AllDigits(frac)
    ensures AllDigits(PadFrac(frac))
    ensures Value(PadFrac(frac)) ==
      10 * (frac[0] as int - '0' as int) + if |frac| == 2 then frac[1] as int - '0' as int else 0
  {
    TwoDigitValue(PadFrac(frac));
  }

  lemma WholeEuros(n: nat)
    ensures WellFormed(Decimal(n)) && Cut(Decimal(n)).whole == Decimal(n)
    ensures Value(Cut(Decimal(n)).whole) == n && ExactCents(Decimal(n)) == 100 * n
  {
    CutPlain(Decimal(n));
    ValueOfDecimal(n);
    TwoDigitValue("00");
  }

  /** "184467440737095517" passes the 63-bit parse, does not fit once in cents, and is read
      as 84 cents. */
  lemma ParserWraps(euros: nat)
    requires 100 * euros == 18446744073709551700
    ensures WellFormed(Decimal(euros)) && ExactCents(Decimal(euros)) == 100 * euros > MAX
    ensures Parsed(Decimal(euros)) == Ok(84)
  {
    WholeEuros(euros);
  }

  // ----- FormatAmountCents -----

  /** Go's `/` and `%`, which truncate towards zero. */
  function GoDiv(a: int, b: int): int
    requires b > 0
  {
    if a >= 0 then a / b else -((-a) / b)
  }

  function GoMod(a: int, b: int): int
    requires b > 0
  {
    a - b * GoDiv(a, b)
  }

  /** `%d` */
  function ShowInt(n: int): string {
    if n >= 0 then Decimal(n) else "-" + Decimal(-n)
  }

  /** `%02d`: at least two characters, the sign included. */
  function ShowInt02(n: int): string {
    if 0 <= n < 10 then "0" + Decimal(n) else ShowInt(n)
  }

  method FormatAmountCents(c: int64) returns (s: string)
    ensures s == Formatted(c)
    ensures c > 0 ==> Parsed(s) == Ok(c)
    ensures MIN < c < 0 ==> s[0] == '-' && Parsed(s[1..]) == Ok(-c)
    ensures if c == MIN then ShowsSmallest(s) else Shows(s, c)
  {
    if c == MIN {
      SmallestShows(c);
    } else {
      FormattedShows(c);
    }
    var sign := "";
    var cents: int64 := c;
    if cents < 0 {
      sign := "-";
      cents := Wrap(-(c as int));
    }
    if c == MIN {
      ShownMin(cents);
    } else {
      ShownUsual(sign, cents);
    }
    s := sign + ShowInt(GoDiv(cents, 100)) + "." + ShowInt02(GoMod(cents, 100));
  }

  lemma ShownUsual(sign: string, n: nat)
    ensures sign + ShowInt(GoDiv(n, 100)) + "." + ShowInt02(GoMod(n, 100)) == sign + Euros(n)
    ensures "" + Euros(n) == Euros(n)
  {
    Decimal2(n % 100);
    assert ShowInt(GoDiv(n, 100)) == Decimal(n / 100);
  }

  lemma ShownMin(c: int64)
    requires c == MIN
    ensures "-" + ShowInt(GoDiv(c, 100)) + "." + ShowInt02(GoMod(c, 100)) == Formatted(c)
  {
    var q := GoDiv(c, 100);
    assert GoMod(c, 100) == -8 && q < 0;
    assert Decimal(8) == [DigitChar(8)] == "8";
    assert ShowInt02(-8) == "-8";
    assert "-" + ("-" + Decimal(-q)) + "." + "-8" == "--" + Decimal(-q) + ".-8";
  }

  lemma Decimal2(n: nat)
    requires n < 100
    ensures ShowInt02(n) == TwoDigits(n)
  {
    assert "0" == [DigitChar(0)];
    if n >= 10 {
      assert Decimal(n / 10) == [DigitChar(n / 10)];
    }
  }

  /** The sign, the whole euros and two digits of cents. Only the most negative int64, whose
      negation wraps back to itself, prints as something else. */
  function Formatted(c: int64): string {
    if c == MIN then "--" + Decimal(-GoDiv(c, 100)) + ".-8"
    else if c < 0 then "-" + Euros(-c)
    else Euros(c)
  }

  /** A minus sign exactly for a negative amount, whole euros without leading zeros, a point and
      two digits, which together denote the amount. */
  predicate Shows(s: string, c: int) {
    && s != "" && (s[0] == '-' <==> c < 0)
    && var u := if c < 0 then s[1..] else s;
    && WellFormed(u) && ExactCents(u) == (if c < 0 then -c else c)
    && |u| >= 4 && u[|u| - 3] == '.' && (u[0] == '0' ==> |u| == 4)
  }

  lemma FormattedShows(c: int64)
    ensures c != MIN ==> Shows(Formatted(c), c)
    ensures c > 0 ==> Parsed(Formatted(c)) == Ok(c)
    ensures MIN < c < 0 ==> Formatted(c)[0] == '-' && Parsed(Formatted(c)[1..]) == Ok(-c)
  {
    if c != MIN {
      var n := if c < 0 then -c else c;
      assert c < 0 ==> Formatted(c)[1..] == Euros(n);
      EurosShow(n);
      ParserExact(Euros(n));
    }
  }

  lemma EurosShow(n: nat)
    ensures Shows(Euros(n), n)
  {
    ExactCentsOfEuros(n);
    NoLeadingZero(n / 100);
    assert Euros(n)[0] == Decimal(n / 100)[0];
  }

  lemma {:induction false} NoLeadingZero(n: nat)
    ensures Decimal(n)[0] == '0' ==> n == 0 && |Decimal(n)| == 1
  {
    if n >= 10 {
      NoLeadingZero(n / 10);
    }
  }

  /** The one text that is no amount: two minus signs, and one before the cents. */
  predicate ShowsSmallest(s: string) {
    && |s| > 5 && s[0] == '-' && s[1] == '-' && s[|s| - 3] == '.' && s[|s| - 2] == '-' && s[|s| - 1] == '8'
    && AllDigits(s[2..|s| - 3]) && Value(s[2..|s| - 3]) == 92233720368547758
  }

  lemma SmallestShows(c: int64)
    requires c == MIN
    ensures ShowsSmallest(Formatted(c))
  {
    var q := -GoDiv(c, 100);
    ValueOfDecimal(q);
    assert Formatted(c)[2..|Formatted(c)| - 3] == Decimal(q);
  }

  /** Different amounts never print alike. */
  lemma FormattedDiffer(c: int64, d: int64)
    ensures Formatted(c) == Formatted(d) ==> c == d
  {
    FormattedShows(c);
    FormattedShows(d);
    if c == MIN {
      SmallestShows(c);
    } else if d == MIN {
      SmallestShows(d);
    }
  }

  function Euros(n: nat): string {
    Decimal(n / 100) + "." + TwoDigits(n % 100)
  }

  /** An amount string with the leading zeros dropped and the fraction written in full. */
  function Canonical(s: string): string
    requires WellFormed(s)
  {
    StripZeros(Cut(s).whole) + "." + PadFrac(Cut(s).frac)
  }

  lemma ExactCentsOfEuros(n: nat)
    ensures WellFormed(Euros(n)) && ExactCents(Euros(n)) == n
  {
    CutJoined(Decimal(n / 100), TwoDigits(n % 100));
    ValueOfDecimal(n / 100);
    TwoDigitValue(TwoDigits(n % 100));
  }

  /** Printing then parsing gives back every positive amount. */
  lemma ParseFormatted(c: int64)
    ensures Parsed(Formatted(c)) == Ok(c) <==> c > 0
  {
    if c > 0 {
      ExactCentsOfEuros(c);
      ParserExact(Formatted(c));
    }
  }

  /** Parsing then printing gives back the canonical text of the input, precisely when the
      exact value of the input fits an int64. */
  lemma FormatParsed(s: string)
    requires Parsed(s).Ok?
    ensures Formatted(Parsed(s).value) == Canonical(s) <==> ExactCents(s) <= MAX
  {
    var v, c := ExactCents(s), Parsed(s).value;
    CanonicalIsEuros(s);
    ExactCentsOfEuros(v);
    ExactCentsOfEuros(c);
    ParserExact(s);
    assert Formatted(c) == Euros(c);
  }

  lemma EurosOf(whole: nat, frac: nat)
    requires frac < 100
    ensures Euros(100 * whole + frac) == Decimal(whole) + "." + TwoDigits(frac)
  {
    assert (100 * whole + frac) / 100 == whole && (100 * whole + frac) % 100 == frac;
  }

  lemma CanonicalIsEuros(s: string)
    requires WellFormed(s)
    ensures Canonical(s) == Euros(ExactCents(s))
  {
    FracBelowHundred(s);
    DecimalOfValue(Cut(s).whole);
    EurosOf(Value(Cut(s).whole), Value(PadFrac(Cut(s).frac)));
  }
}
