/**
 * JavaScript's `Number(t)` on the texts the item pattern captures with `[\d.]+`: such a
 * text is a decimal literal (digits, at most one dot, at least one digit) or it is NaN.
 * Values are exact rationals; the rounding to a double is not modelled.
 */
module Numbers {
  import opened Text

  datatype Number = NaN | Finite(value: real)

  function Pow10(n: nat): (r: nat)
    ensures r >= 1
  {
    if n == 0 then 1 else 10 * Pow10(n - 1)
  }

  /** `t` holds two dots. */
  predicate TwoDots(t: string)
  {
    exists i, j :: 0 <= i < j < |t| && t[i] == '.' && t[j] == '.'
  }

  predicate HasDigit(t: string)
  {
    exists k :: 0 <= k < |t| && IsDigit(t[k])
  }

  /** The first dot of a text whose first dot is at `d`. */
  lemma FirstDot(t: string, d: nat)
    requires d < |t| && t[d] == '.' && forall k :: 0 <= k < d ==> t[k] != '.'
    ensures IndexFrom(t, ".", 0) == Some(d)
  {
    CharAt(t, '.', d);
    forall j | 0 <= j < d ensures !OccursAt(t, ".", j) {
      CharAt(t, '.', j);
    }
  }

  /** Scaling a fraction by ten above and below keeps its value. */
  lemma Scale(a: real, b: real)
    requires b > 0.0
    ensures (a * 10.0) / (b * 10.0) == a / b
  {
  }

  /** A text without a dot is all digits. */
  lemma DotFree(t: string)
    requires AllIn(DecimalChar, t) && forall j :: 0 <= j <= |t| ==> !OccursAt(t, ".", j)
    ensures AllIn(Digit, t)
  {
    forall k | 0 <= k < |t| ensures IsDigit(t[k]) {
      assert !OccursAt(t, ".", k);
      assert t[k..k + 1] == [t[k]];
    }
  }

  /** `Number(t)` for a text of digits and dots. */
  function DecimalNumber(t: string): (r: Number)
    requires AllIn(DecimalChar, t)
    ensures r.NaN? <==> TwoDots(t) || (t != [] && !HasDigit(t))
    ensures AllIn(Digit, t) ==> r == Finite(DigitsValue(t) as real)
  {
    match IndexFrom(t, ".", 0)
    case None =>
      DotFree(t);
      Finite(DigitsValue(t) as real)
    case Some(d) =>
      var whole, frac := t[..d], t[d + 1..];
      assert t[d..d + 1] == "." && t[d] == '.';
      assert AllIn(Digit, whole) by {
        forall k | 0 <= k < d ensures IsDigit(whole[k]) {
          assert !OccursAt(t, ".", k) && t[k..k + 1] == [t[k]];
        }
      }
      assert forall j :: 0 <= j < |frac| ==> frac[j] == t[d + 1 + j];
      match IndexFrom(frac, ".", 0)
      case Some(e) =>
        assert frac[e..e + 1] == "." && t[d + 1 + e] == '.';
        NaN
      case None =>
        DotFree(frac);
        assert !TwoDots(t);
        if whole == [] && frac == [] then
          assert t == ".";
          NaN
        else
          assert HasDigit(t) by {
            if whole != [] { assert IsDigit(t[0]); } else { assert IsDigit(t[d + 1]); }
          }
          Finite(DigitsValue(whole) as real + DigitsValue(frac) as real / Pow10(|frac|) as real)
  }

  /** Appending a digit multiplies the value by ten and adds the digit. */
  lemma DigitsValueSnoc(s: string, c: char)
    requires AllIn(Digit, s) && IsDigit(c)
    ensures AllIn(Digit, s + [c]) && DigitsValue(s + [c]) == DigitsValue(s) * 10 + (c as int - '0' as int)
  {
    assert (s + [c])[..|s|] == s;
  }

  /** A literal with a dot splits at that dot, the first, and the fraction holds no other. */
  lemma SplitAtDot(whole: string, frac: string)
    requires AllIn(Digit, whole) && AllIn(Digit, frac)
    ensures var t := whole + "." + frac;
      && AllIn(DecimalChar, t) && IndexFrom(t, ".", 0) == Some(|whole|)
      && t[..|whole|] == whole && t[|whole| + 1..] == frac && IndexFrom(frac, ".", 0).None?
  {
    var t := whole + "." + frac;
    assert AllIn(DecimalChar, t) by {
      forall k | 0 <= k < |t| ensures InClass(DecimalChar, t[k]) {
        if k < |whole| { assert t[k] == whole[k]; }
        else if k > |whole| { assert t[k] == frac[k - |whole| - 1]; }
      }
    }
    assert IndexFrom(t, ".", 0) == Some(|whole|) by {
      assert forall k :: 0 <= k < |whole| ==> t[k] == whole[k];
      assert t[|whole|] == '.';
      FirstDot(t, |whole|);
    }
    assert t[..|whole|] == whole && t[|whole| + 1..] == frac;
    assert IndexFrom(frac, ".", 0).None? by {
      forall j | 0 <= j <= |frac| ensures !OccursAt(frac, ".", j) {
        CharAt(frac, '.', j);
      }
    }
  }

  /** A literal with a dot: the whole part plus the fraction digits over their power of ten. */
  lemma SplitValue(whole: string, frac: string)
    requires AllIn(Digit, whole) && AllIn(Digit, frac) && (whole != [] || frac != [])
    ensures AllIn(DecimalChar, whole + "." + frac)
    ensures DecimalNumber(whole + "." + frac)
      == Finite(DigitsValue(whole) as real + DigitsValue(frac) as real / Pow10(|frac|) as real)
  {
    hide TwoDots, HasDigit, DigitsValue, Pow10, IndexFrom, AllIn;
    SplitAtDot(whole, frac);
  }

  /** A trailing zero in the fraction does not change the number: `Number("1.50") == Number("1.5")`. */
  lemma TrailingZero(whole: string, frac: string)
    requires AllIn(Digit, whole) && AllIn(Digit, frac) && (whole != [] || frac != [])
    ensures AllIn(DecimalChar, whole + "." + frac + "0") && AllIn(DecimalChar, whole + "." + frac)
    ensures DecimalNumber(whole + "." + frac + "0") == DecimalNumber(whole + "." + frac)
  {
    DigitsValueSnoc(frac, '0');
    var f0 := frac + "0";
    assert whole + "." + frac + "0" == whole + "." + f0;
    SplitValue(whole, frac);
    SplitValue(whole, f0);
    var a, b := DigitsValue(frac) as real, Pow10(|frac|) as real;
    assert DigitsValue(f0) as real == a * 10.0 && Pow10(|f0|) as real == b * 10.0;
    Scale(a, b);
  }

  /** A leading zero adds nothing to the value of a digit string. */
  lemma {:induction false} LeadingZeroValue(t: string)
    requires AllIn(Digit, t)
    ensures AllIn(Digit, "0" + t) && DigitsValue("0" + t) == DigitsValue(t)
    decreases |t|
  {
    if t == [] {
      assert DigitsValue("0") == DigitsValue([]) * 10;
    } else {
      var init, c := t[..|t| - 1], t[|t| - 1];
      assert t == init + [c];
      LeadingZeroValue(init);
      assert "0" + t == ("0" + init) + [c];
      DigitsValueSnoc("0" + init, c);
      DigitsValueSnoc(init, c);
    }
  }

  /** Leading zeros are ignored: `Number("0" + t)` is `Number(t)` for every digit string `t`
      (so `Number("007")` is 7). */
  lemma LeadingZerosIgnored(t: string)
    requires AllIn(Digit, t)
    ensures AllIn(DecimalChar, "0" + t) && AllIn(DecimalChar, t)
    ensures DecimalNumber("0" + t) == DecimalNumber(t)
  {
    LeadingZeroValue(t);
  }

  /** A second dot makes the text NaN, whatever the digits around the dots (`Number("1.2.3")`). */
  lemma SecondDotIsNaN(a: string, b: string, c: string)
    requires AllIn(Digit, a) && AllIn(Digit, b) && AllIn(Digit, c)
    ensures AllIn(DecimalChar, a + "." + b + "." + c) && DecimalNumber(a + "." + b + "." + c) == NaN
  {
    var t := a + "." + b + "." + c;
    assert AllIn(DecimalChar, t) by {
      forall k | 0 <= k < |t| ensures InClass(DecimalChar, t[k]) {
        if k < |a| { assert t[k] == a[k]; }
        else if |a| < k < |a| + 1 + |b| { assert t[k] == b[k - |a| - 1]; }
        else if k > |a| + 1 + |b| { assert t[k] == c[k - |a| - |b| - 2]; }
      }
    }
    assert t[|a|] == '.' && t[|a| + 1 + |b|] == '.';
    assert TwoDots(t);
  }

  /** The digit runs of "1.50". */
  lemma OneFifty()
    ensures AllIn(Digit, "1") && DigitsValue("1") == 1
    ensures AllIn(Digit, "50") && DigitsValue("50") == 50
  {
    assert DigitsValue("50") == DigitsValue("5") * 10;
  }

  /** `Number("1.50")` is 1.5. */
  lemma FractionValue()
    ensures AllIn(DecimalChar, "1.50") && DecimalNumber("1.50") == Finite(1.5)
  {
    var whole, frac := "1", "50";
    assert whole + "." + frac == "1.50";
    assert Pow10(|frac|) == 100;
    hide *;
    OneFifty();
    SplitValue(whole, frac);
  }
}
