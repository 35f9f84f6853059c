/**
 * Monetary amounts as integer cents.  `ParseCents` stands for `float(text)` on the
 * ASCII decimal texts with at most two fraction digits.  Below $10^13 in magnitude
 * the double nearest such a text is within 2^-10 dollars of it, so the rules that
 * test `is_integer()`, `% 0.25 == 0` and `ceil(x * 0.2)` agree with the integer
 * tests below; larger amounts are rounded by `float` and may score differently.
 */
module Money {
  import opened Results
  import opened Text

  /** What a left-to-right reading of an unsigned amount has seen so far. */
  datatype Scan = Scan(value: nat, digits: nat, fractionDigits: Option<nat>)

  /**
   * Reads the first `n` characters of `s`: digits with at most one point and at
   * most two digits after it, every digit accumulated into `value`; `None` at
   * any other character.
   */
  function ScanPrefix(s: string, n: nat): Option<Scan>
    requires n <= |s|
  {
    if n == 0 then Some(Scan(0, 0, None))
    else
      match ScanPrefix(s, n - 1)
      case None => None
      case Some(st) =>
        var c := s[n - 1];
        if IsDigit(c) then
          if st.fractionDigits == Some(2) then None
          else
            var fractionDigits := if st.fractionDigits.Some? then Some(st.fractionDigits.value + 1) else None;
            Some(Scan(st.value * 10 + DigitValue(c), st.digits + 1, fractionDigits))
        else if c == '.' && st.fractionDigits.None? then
          Some(st.(fractionDigits := Some(0)))
        else
          None
  }

  /** Digits, an optional point and up to two fraction digits, with at least one digit in all. */
  function ParseUnsignedCents(s: string): Option<nat> {
    match ScanPrefix(s, |s|)
    case None => None
    case Some(st) =>
      if st.digits == 0 then None
      else if st.fractionDigits == Some(2) then Some(st.value)
      else if st.fractionDigits == Some(1) then Some(st.value * 10)
      else Some(st.value * 100)
  }

  /** `float(s)` in cents, with `None` where `float` raises `ValueError`. */
  function ParseCents(s: string): (r: Option<int>)
    ensures r.Some? ==> s != []
    ensures r.Some? && r.value < 0 ==> s[0] == '-'
  {
    if s != [] && (s[0] == '+' || s[0] == '-') then
      match ParseUnsignedCents(s[1..])
      case None => None
      case Some(c) => var v: int := c; Some(if s[0] == '-' then -v else v)
    else
      ParseUnsignedCents(s)
  }

  /** The canonical rendering `[-]D+.DD` of an amount in cents. */
  function FormatCents(c: int): string {
    if c < 0 then "-" + FormatUnsignedCents(-c) else FormatUnsignedCents(c)
  }

  function FormatUnsignedCents(m: nat): string {
    NatToDigits(m / 100) + "." + FixedDigits(m % 100, 2)
  }

  /** Value in cents of the digits after the point: "5" is 50 cents, "05" is 5. */
  function FractionCents(f: string): (r: nat)
    requires AllDigits(f) && |f| <= 2
    ensures r < 100
  {
    AllDigitsIff(f);
    if |f| == 0 then 0
    else if |f| == 1 then 10 * DigitValue(f[0])
    else 10 * DigitValue(f[0]) + DigitValue(f[1])
  }

  lemma StepDigit(s: string, k: nat, st: Scan)
    requires k < |s| && ScanPrefix(s, k) == Some(st) && IsDigit(s[k]) && st.fractionDigits != Some(2)
    ensures ScanPrefix(s, k + 1) == Some(Scan(st.value * 10 + DigitValue(s[k]), st.digits + 1,
      if st.fractionDigits.Some? then Some(st.fractionDigits.value + 1) else None))
  {
  }

  lemma StepPoint(s: string, k: nat, st: Scan)
    requires k < |s| && ScanPrefix(s, k) == Some(st) && s[k] == '.' && st.fractionDigits.None?
    ensures ScanPrefix(s, k + 1) == Some(st.(fractionDigits := Some(0)))
  {
  }

  /** A leading run of digits reads as its decimal value, with no point seen. */
  lemma {:induction false} ScanDigits(s: string, k: nat)
    requires k <= |s| && AllDigits(s[..k])
    ensures ScanPrefix(s, k) == Some(Scan(DigitsToNat(s[..k]), k, None))
  {
    if k > 0 {
      assert s[..k][..k - 1] == s[..k - 1];
      ScanDigits(s, k - 1);
    }
  }

  /** A run of digits with no point is a whole number of dollars. */
  lemma WholeDollars(whole: string)
    requires AllDigits(whole)
    ensures ParseUnsignedCents(whole) == if whole == [] then None else Some(DigitsToNat(whole) * 100)
  {
    assert whole[..|whole|] == whole;
    ScanDigits(whole, |whole|);
  }

  /** Digits and a point with nothing after it: whole dollars, provided there is a digit. */
  lemma PointOnly(whole: string)
    requires AllDigits(whole)
    ensures ParseUnsignedCents(whole + ".") == if whole == [] then None else Some(DigitsToNat(whole) * 100)
  {
    var s := whole + ".";
    var n := |whole|;
    assert s[..n] == whole;
    ScanDigits(s, n);
    StepPoint(s, n, Scan(DigitsToNat(whole), n, None));
  }

  lemma ScanOneFractionDigit(whole: string, d: char)
    requires AllDigits(whole) && IsDigit(d)
    ensures ParseUnsignedCents(whole + "." + [d]) == Some(DigitsToNat(whole) * 100 + 10 * DigitValue(d))
  {
    var s := whole + "." + [d];
    var n := |whole|;
    var w := DigitsToNat(whole);
    assert s[..n] == whole;
    ScanDigits(s, n);
    StepPoint(s, n, Scan(w, n, None));
    StepDigit(s, n + 1, Scan(w, n, Some(0)));
  }

  lemma ScanTwoFractionDigits(whole: string, d0: char, d1: char)
    requires AllDigits(whole) && IsDigit(d0) && IsDigit(d1)
    ensures ParseUnsignedCents(whole + "." + [d0, d1]) == Some(DigitsToNat(whole) * 100 + 10 * DigitValue(d0) + DigitValue(d1))
  {
    var s := whole + "." + [d0, d1];
    var n := |whole|;
    var w := DigitsToNat(whole);
    assert s[..n] == whole;
    ScanDigits(s, n);
    StepPoint(s, n, Scan(w, n, None));
    StepDigit(s, n + 1, Scan(w, n, Some(0)));
    StepDigit(s, n + 2, Scan(w * 10 + DigitValue(d0), n + 1, Some(1)));
  }

  /** One digit after the point counts tens of cents. */
  lemma OneFractionDigit(whole: string, fraction: string)
    requires AllDigits(whole) && AllDigits(fraction) && |fraction| == 1
    ensures ParseUnsignedCents(whole + "." + fraction) == Some(DigitsToNat(whole) * 100 + FractionCents(fraction))
  {
    AllDigitsIff(fraction);
    assert fraction == [fraction[0]];
    ScanOneFractionDigit(whole, fraction[0]);
  }

  /** Two digits after the point count tens of cents and cents. */
  lemma TwoFractionDigits(whole: string, fraction: string)
    requires AllDigits(whole) && AllDigits(fraction) && |fraction| == 2
    ensures ParseUnsignedCents(whole + "." + fraction) == Some(DigitsToNat(whole) * 100 + FractionCents(fraction))
  {
    AllDigitsIff(fraction);
    assert fraction == [fraction[0], fraction[1]];
    ScanTwoFractionDigits(whole, fraction[0], fraction[1]);
  }

  /** Digits, a point and at most two digits: dollars times 100 plus the fraction's cents. */
  lemma DollarsAndCents(whole: string, fraction: string)
    requires AllDigits(whole) && AllDigits(fraction) && |fraction| <= 2
    ensures ParseUnsignedCents(whole + "." + fraction)
         == if whole == [] && fraction == [] then None else Some(DigitsToNat(whole) * 100 + FractionCents(fraction))
  {
    if |fraction| == 0 {
      assert whole + "." + fraction == whole + ".";
      PointOnly(whole);
    } else if |fraction| == 1 {
      OneFractionDigit(whole, fraction);
    } else {
      TwoFractionDigits(whole, fraction);
    }
  }

  /** Two fraction digits are worth their own decimal value in cents. */
  lemma FractionCentsTwoDigits(f: string)
    requires AllDigits(f) && |f| == 2
    ensures FractionCents(f) == DigitsToNat(f)
  {
    AllDigitsIff(f);
    var tens, units := f[0], f[1];
    DigitsToNatPush([], tens);
    assert [] + [tens] == [tens];
    DigitsToNatPush([tens], units);
    assert [tens] + [units] == f;
  }

  /** A third digit after the point is refused. */
  lemma ThreeFractionDigits(whole: string, fraction: string)
    requires AllDigits(whole) && AllDigits(fraction) && |fraction| == 3
    ensures ParseUnsignedCents(whole + "." + fraction) == None
  {
    AllDigitsIff(fraction);
    var s := whole + "." + fraction;
    var n := |whole|;
    var w := DigitsToNat(whole);
    assert s[..n] == whole;
    ScanDigits(s, n);
    StepPoint(s, n, Scan(w, n, None));
    StepDigit(s, n + 1, Scan(w, n, Some(0)));
    StepDigit(s, n + 2, Scan(w * 10 + DigitValue(fraction[0]), n + 1, Some(1)));
    assert s[n + 3] == fraction[2];
  }

  /** A leading `+` changes nothing and a leading `-` negates, provided the rest is unsigned. */
  lemma SignedAmount(body: string)
    requires body == [] || (body[0] != '+' && body[0] != '-')
    ensures ParseCents(body) == match ParseUnsignedCents(body) case None => None case Some(c) => Some(c)
    ensures ParseCents("+" + body) == ParseCents(body)
    ensures ParseCents("-" + body) == match ParseUnsignedCents(body) case None => None case Some(c) => Some(-(c as int))
  {
    assert ("+" + body)[1..] == body;
    assert ("-" + body)[1..] == body;
  }

  /** The canonical `D+.DD` shape parses to dollars times 100 plus cents. */
  lemma CanonicalAmount(whole: string, fraction: string)
    requires |whole| >= 1 && AllDigits(whole)
    requires |fraction| == 2 && AllDigits(fraction)
    ensures ParseCents(whole + "." + fraction) == Some(DigitsToNat(whole) * 100 + DigitsToNat(fraction))
  {
    var s := whole + "." + fraction;
    AllDigitsIff(whole);
    assert s[0] == whole[0];
    DollarsAndCents(whole, fraction);
    FractionCentsTwoDigits(fraction);
    SignedAmount(s);
  }

  lemma UnsignedRoundTrip(m: nat)
    ensures var body := FormatUnsignedCents(m);
      ParseUnsignedCents(body) == Some(m) && body[0] != '+' && body[0] != '-'
  {
    var whole := NatToDigits(m / 100);
    NatToDigitsRoundTrip(m / 100);
    DollarsAndCents(whole, FixedDigits(m % 100, 2));
    FractionCentsTwoDigits(FixedDigits(m % 100, 2));
    AllDigitsIff(whole);
    assert FormatUnsignedCents(m)[0] == whole[0];
  }

  /** Every amount in cents is read back from its canonical rendering. */
  lemma FormatCentsRoundTrip(c: int)
    ensures ParseCents(FormatCents(c)) == Some(c)
  {
    var m: nat := if c < 0 then -c else c;
    UnsignedRoundTrip(m);
    SignedAmount(FormatUnsignedCents(m));
  }

  /** `ceil(price * 0.2)` for a price in cents: the price divided by 500 and rounded up. */
  function PriceBonus(cents: int): int {
    if cents % 500 == 0 then cents / 500 else cents / 500 + 1
  }

  /** The bonus is the ceiling of a fifth of the price in dollars: the least `r` with `price <= 5 * r` dollars. */
  lemma PriceBonusIsCeiling(cents: int)
    ensures var r := PriceBonus(cents); (r - 1) * 500 < cents <= r * 500
  {
  }

  /** The bonus is non-negative exactly for prices above -$5.00, and zero exactly for prices in (-$5.00, $0.00]. */
  lemma PriceBonusSign(cents: int)
    ensures PriceBonus(cents) >= 0 <==> cents > -500
    ensures PriceBonus(cents) == 0 <==> -500 < cents <= 0
  {
  }

  lemma {:induction false} ScanStaysRefused(s: string, k: nat, j: nat)
    requires k <= j <= |s| && ScanPrefix(s, k) == None
    ensures ScanPrefix(s, j) == None
  {
    if k < j {
      ScanStaysRefused(s, k, j - 1);
    }
  }

  /** Any character other than a digit or the point makes the text unreadable. */
  lemma ForeignCharacter(s: string, k: nat)
    requires k < |s| && !IsDigit(s[k]) && s[k] != '.'
    ensures ParseUnsignedCents(s) == None
  {
    ScanStaysRefused(s, k + 1, |s|);
  }

  /** Once a point has been read, every later reading remembers it. */
  lemma {:induction false} PointIsRemembered(s: string, i: nat, j: nat)
    requires i < j <= |s| && s[i] == '.'
    ensures ScanPrefix(s, j).Some? ==> ScanPrefix(s, j).value.fractionDigits.Some?
  {
    if j > i + 1 {
      PointIsRemembered(s, i, j - 1);
    }
  }

  /** A second point makes the text unreadable. */
  lemma SecondPoint(s: string, i: nat, k: nat)
    requires i < k < |s| && s[i] == '.' && s[k] == '.'
    ensures ParseUnsignedCents(s) == None
  {
    PointIsRemembered(s, i, k);
    ScanStaysRefused(s, k + 1, |s|);
  }

  /** The item price of the example receipt. */
  lemma ExampleAmount()
    ensures ParseCents("6.49") == Some(649)
  {
    assert "6"[..0] == [];
    ScanTwoFractionDigits("6", '4', '9');
    assert "6" + "." + ['4', '9'] == "6.49";
    SignedAmount("6.49");
  }

  /** "6.4" is a valid amount for `float`: one fraction digit, 640 cents. */
  lemma ExampleOneFractionDigit()
    ensures ParseCents("6.4") == Some(640)
  {
    assert "6"[..0] == [];
    ScanOneFractionDigit("6", '4');
    assert "6" + "." + ['4'] == "6.4";
    SignedAmount("6.4");
  }

  /** "6.x9" and "6.4.9" are refused. */
  lemma ExampleRefused()
    ensures ParseCents("6.x9") == None
    ensures ParseCents("6.4.9") == None
  {
    ForeignCharacter("6.x9", 2);
    SignedAmount("6.x9");
    SecondPoint("6.4.9", 1, 3);
    SignedAmount("6.4.9");
  }
}
