/**
 * The string primitives the scoring code relies on: `str.isalnum`, `str.strip`
 * and the decimal digit runs read by `float` and `strptime`.
 * `IsAlnum` covers the ASCII letters and digits only; `IsSpace` is Python's
 * whitespace class on the Latin-1 range.
 */
module Text {

  predicate IsDigit(c: char) {
    '0' <= c <= '9'
  }

  /** `str.isalnum` on one character (ASCII letters and digits). */
  predicate IsAlnum(c: char) {
    IsDigit(c) || 'a' <= c <= 'z' || 'A' <= c <= 'Z'
  }

  /** `str.isspace` on one character of the Latin-1 range. */
  predicate IsSpace(c: char) {
    var n := c as int;
    9 <= n <= 13 || 28 <= n <= 32 || n == 0x85 || n == 0xA0
  }

  // ---------------------------------------------------------------------------
  // Counting alphanumeric characters
  // ---------------------------------------------------------------------------

  /** Number of alphanumeric characters, counted left to right. */
  function AlnumCount(s: string): nat {
    if s == [] then 0
    else AlnumCount(s[..|s| - 1]) + (if IsAlnum(s[|s| - 1]) then 1 else 0)
  }

  /** Positions of the alphanumeric characters: an independent description of the count. */
  ghost function AlnumPositions(s: string): set<nat> {
    set i: nat | i < |s| && IsAlnum(s[i])
  }

  lemma {:induction false} AlnumCountIsPositionCount(s: string)
    ensures AlnumCount(s) == |AlnumPositions(s)|
    ensures AlnumCount(s) <= |s|
  {
    if s != [] {
      var t := s[..|s| - 1];
      AlnumCountIsPositionCount(t);
      assert |t| !in AlnumPositions(t);
      if IsAlnum(s[|s| - 1]) {
        assert AlnumPositions(s) == AlnumPositions(t) + {|t|};
      } else {
        assert AlnumPositions(s) == AlnumPositions(t);
      }
    }
  }

  lemma {:induction false} AlnumCountAppend(s: string, t: string)
    ensures AlnumCount(s + t) == AlnumCount(s) + AlnumCount(t)
  {
    if t != [] {
      var t' := t[..|t| - 1];
      assert (s + t)[..|s + t| - 1] == s + t';
      AlnumCountAppend(s, t');
    } else {
      assert s + t == s;
    }
  }

  /** A text made only of letters and digits scores one point per character. */
  lemma {:induction false} AlnumCountAllAlnum(s: string)
    requires forall k :: 0 <= k < |s| ==> IsAlnum(s[k])
    ensures AlnumCount(s) == |s|
  {
    if s != [] {
      AlnumCountAllAlnum(s[..|s| - 1]);
    }
  }

  /** A character that is not alphanumeric (a space, `&`, `-`) contributes nothing wherever it stands. */
  lemma NonAlnumAddsNothing(s: string, c: char, t: string)
    requires !IsAlnum(c)
    ensures AlnumCount(s + [c] + t) == AlnumCount(s + t)
  {
    AlnumCountAppend(s + [c], t);
    AlnumCountAppend(s, [c]);
    AlnumCountAppend(s, t);
    assert [c][..0] == [];
  }

  // ---------------------------------------------------------------------------
  // Stripping surrounding whitespace
  // ---------------------------------------------------------------------------

  /** Drops the leading whitespace. */
  function StripStart(s: string): string {
    if s != [] && IsSpace(s[0]) then StripStart(s[1..]) else s
  }

  /** Drops the trailing whitespace. */
  function StripEnd(s: string): string {
    if s != [] && IsSpace(s[|s| - 1]) then StripEnd(s[..|s| - 1]) else s
  }

  /** `str.strip()` with no argument. */
  function Strip(s: string): string {
    StripEnd(StripStart(s))
  }

  /** What is left after dropping leading whitespace is a suffix of `s` that does not start with whitespace. */
  lemma {:induction false} StripStartSpec(s: string)
    ensures var r := StripStart(s);
      && |r| <= |s| && r == s[|s| - |r|..]
      && (forall k :: 0 <= k < |s| - |r| ==> IsSpace(s[k]))
      && (r != [] ==> !IsSpace(r[0]))
  {
    if s != [] && IsSpace(s[0]) {
      var tail := s[1..];
      StripStartSpec(tail);
      var r := StripStart(tail);
      assert tail[|tail| - |r|..] == s[|s| - |r|..];
      forall k | 0 <= k < |s| - |r|
        ensures IsSpace(s[k])
      {
        if k > 0 {
          assert s[k] == tail[k - 1];
        }
      }
    }
  }

  /** What is left after dropping trailing whitespace is a prefix of `s` that does not end with whitespace. */
  lemma {:induction false} StripEndSpec(s: string)
    ensures var r := StripEnd(s);
      && |r| <= |s| && r == s[..|r|]
      && (forall k :: |r| <= k < |s| ==> IsSpace(s[k]))
      && (r != [] ==> !IsSpace(r[|r| - 1]))
  {
    if s != [] && IsSpace(s[|s| - 1]) {
      var init := s[..|s| - 1];
      StripEndSpec(init);
      var r := StripEnd(init);
      assert init[..|r|] == s[..|r|];
      forall k | |r| <= k < |s|
        ensures IsSpace(s[k])
      {
        if k < |init| {
          assert s[k] == init[k];
        }
      }
    }
  }

  /**
   * `strip` keeps a text that neither starts nor ends with whitespace, returns the
   * empty text exactly for all-whitespace input, and otherwise returns a text that
   * neither starts nor ends with whitespace.
   */
  lemma StripSpec(s: string)
    ensures var r := Strip(s);
      && |r| <= |s|
      && (r != [] ==> !IsSpace(r[0]) && !IsSpace(r[|r| - 1]))
      && (r == [] <==> forall k :: 0 <= k < |s| ==> IsSpace(s[k]))
      && (s != [] && !IsSpace(s[0]) && !IsSpace(s[|s| - 1]) ==> r == s)
  {
    var start := StripStart(s);
    StripStartSpec(s);
    StripEndSpec(start);
    var r := StripEnd(start);
    assert r != [] ==> r[0] == start[0];
    assert start != [] ==> r != [] by {
      if start != [] { assert start[0] == s[|s| - |start|]; }
    }
  }

  /** Stripping twice is stripping once. */
  lemma StripIdempotent(s: string)
    ensures Strip(Strip(s)) == Strip(s)
  {
    StripSpec(s);
    StripSpec(Strip(s));
  }

  predicate AllSpace(w: string) {
    forall k :: 0 <= k < |w| ==> IsSpace(w[k])
  }

  lemma {:induction false} StripStartAppend(s: string, t: string)
    ensures StripStart(s + t) == if StripStart(s) == [] then StripStart(t) else StripStart(s) + t
  {
    if s == [] {
      assert s + t == t;
    } else if IsSpace(s[0]) {
      assert (s + t)[1..] == s[1..] + t;
      StripStartAppend(s[1..], t);
    }
  }

  lemma {:induction false} StripEndPadding(s: string, w: string)
    requires AllSpace(w)
    ensures StripEnd(s + w) == StripEnd(s)
  {
    if w == [] {
      assert s + w == s;
    } else {
      assert (s + w)[..|s + w| - 1] == s + w[..|w| - 1];
      StripEndPadding(s, w[..|w| - 1]);
    }
  }

  lemma {:induction false} StripStartPadding(w: string, s: string)
    requires AllSpace(w)
    ensures StripStart(w + s) == StripStart(s)
  {
    if w != [] {
      assert (w + s)[1..] == w[1..] + s;
      StripStartPadding(w[1..], s);
    } else {
      assert w + s == s;
    }
  }

  /** Whitespace added around a text does not change what `strip` returns. */
  lemma StripPadding(w1: string, s: string, w2: string)
    requires AllSpace(w1) && AllSpace(w2)
    ensures Strip(w1 + s + w2) == Strip(s)
  {
    assert w1 + s + w2 == w1 + (s + w2);
    StripStartPadding(w1, s + w2);
    StripStartAppend(s, w2);
    if StripStart(s) == [] {
      StripStartPadding(w2, []);
      assert w2 + [] == w2;
    } else {
      StripEndPadding(StripStart(s), w2);
    }
  }

  // ---------------------------------------------------------------------------
  // Decimal digit runs
  // ---------------------------------------------------------------------------

  /** Every character is a decimal digit (stated recursively, so that it unfolds one character at a time). */
  predicate AllDigits(s: string) {
    s == [] || (AllDigits(s[..|s| - 1]) && IsDigit(s[|s| - 1]))
  }

  lemma {:induction false} AllDigitsIff(s: string)
    ensures AllDigits(s) <==> forall i :: 0 <= i < |s| ==> IsDigit(s[i])
  {
    if s != [] {
      AllDigitsIff(s[..|s| - 1]);
    }
  }

  lemma AllDigitsAppend(s: string, t: string)
    requires AllDigits(s) && AllDigits(t)
    ensures AllDigits(s + t)
  {
    AllDigitsIff(s);
    AllDigitsIff(t);
    AllDigitsIff(s + t);
  }

  function DigitValue(c: char): (d: nat)
    requires IsDigit(c)
    ensures d < 10
  {
    (c as int) - ('0' as int)
  }

  function DigitChar(d: nat): (c: char)
    requires d < 10
    ensures IsDigit(c) && DigitValue(c) == d
  {
    ('0' as int + d) as char
  }

  /** The value of a run of decimal digits, most significant first. */
  function DigitsToNat(s: string): nat
    requires AllDigits(s)
  {
    if s == [] then 0 else DigitsToNat(s[..|s| - 1]) * 10 + DigitValue(s[|s| - 1])
  }

  /** Appending a digit shifts the value one decimal place and adds the digit. */
  lemma DigitsToNatPush(s: string, c: char)
    requires AllDigits(s) && IsDigit(c)
    ensures AllDigits(s + [c]) && DigitsToNat(s + [c]) == DigitsToNat(s) * 10 + DigitValue(c)
  {
    assert (s + [c])[..|s|] == s;
  }

  lemma {:induction false} DigitsToNatBound(s: string)
    requires AllDigits(s)
    ensures DigitsToNat(s) < Pow10(|s|)
  {
    if s != [] {
      DigitsToNatBound(s[..|s| - 1]);
    }
  }

  /** The shortest decimal rendering of `n` (no leading zeros). */
  function NatToDigits(n: nat): (r: string)
    ensures AllDigits(r) && |r| >= 1
  {
    if n < 10 then
      assert [DigitChar(n)][..0] == [];
      [DigitChar(n)]
    else
      var r := NatToDigits(n / 10) + [DigitChar(n % 10)];
      assert r[..|r| - 1] == NatToDigits(n / 10);
      r
  }

  lemma {:induction false} NatToDigitsRoundTrip(n: nat)
    ensures DigitsToNat(NatToDigits(n)) == n
  {
    if n >= 10 {
      NatToDigitsRoundTrip(n / 10);
      var r := NatToDigits(n);
      assert r[..|r| - 1] == NatToDigits(n / 10);
    }
  }

  function Pow10(k: nat): (p: nat)
    ensures p >= 1
  {
    if k == 0 then 1 else 10 * Pow10(k - 1)
  }

  /** The rendering of `n` in exactly `width` digits, padded with leading zeros. */
  function FixedDigits(n: nat, width: nat): (r: string)
    requires n < Pow10(width)
    ensures |r| == width && AllDigits(r) && DigitsToNat(r) == n
  {
    if width == 0 then []
    else
      var r := FixedDigits(n / 10, width - 1) + [DigitChar(n % 10)];
      assert r[..|r| - 1] == FixedDigits(n / 10, width - 1);
      r
  }

  /** The value of a two-digit field such as a month, a day, an hour or a minute. */
  function TwoDigitValue(tens: char, units: char): (n: nat)
    requires IsDigit(tens) && IsDigit(units)
    ensures n < 100
  {
    10 * DigitValue(tens) + DigitValue(units)
  }

  /** A number below 100 written as two digits, with a leading zero when needed. */
  function TwoDigitText(n: nat): (r: string)
    requires n < 100
    ensures |r| == 2 && IsDigit(r[0]) && IsDigit(r[1])
  {
    [DigitChar(n / 10), DigitChar(n % 10)]
  }

  lemma TwoDigitRoundTrip(n: nat)
    requires n < 100
    ensures TwoDigitValue(TwoDigitText(n)[0], TwoDigitText(n)[1]) == n
  {
  }
}
