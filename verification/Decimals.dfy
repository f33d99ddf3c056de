/** Decimal digits and numbers: what `count_digits` and `format_decimal` write, and how it is read back. */
module Decimals {
  import opened FormatSyntax
  import opened Options

  function Digit(d: nat): (c: char)
    requires d < 10
    ensures IsDigit(c) && DigitValue(c) == d
  {
    d as char + '0'
  }

  function Decimal(n: nat): (r: string)
    ensures |r| > 0 && forall c <- r :: IsDigit(c)
    ensures n > 0 ==> r[0] != '0'
  {
    if n < 10 then [Digit(n)] else Decimal(n / 10) + [Digit(n % 10)]
  }

  function ValueOf(digits: string, acc: nat): (v: nat)
    requires forall c <- digits :: IsDigit(c)
    ensures v >= acc
    decreases digits
  {
    if digits == "" then acc else ValueOf(digits[1..], 10 * acc + DigitValue(digits[0]))
  }

  lemma {:induction false} ValueOfAppend(a: string, c: char, acc: nat)
    requires (forall x <- a :: IsDigit(x)) && IsDigit(c)
    ensures forall x <- a + [c] :: IsDigit(x)
    ensures ValueOf(a + [c], acc) == 10 * ValueOf(a, acc) + DigitValue(c)
    decreases a
  {
    assert forall x :: x in a + [c] <==> x in a || x == c;
    if a == "" {
      assert a + [c] == [c] && [c][1..] == "";
    } else {
      assert (a + [c])[1..] == a[1..] + [c];
      ValueOfAppend(a[1..], c, 10 * acc + DigitValue(a[0]));
    }
  }

  lemma {:induction false} DecimalValue(n: nat)
    ensures ValueOf(Decimal(n), 0) == n
  {
    if n < 10 {
      assert [Digit(n)][1..] == "";
    } else {
      DecimalValue(n / 10);
      ValueOfAppend(Decimal(n / 10), Digit(n % 10), 0);
    }
  }

  // ---- Reading numbers ----

  /** Leading zeros change nothing. */
  lemma {:induction false} ValueOfZeros(zeros: string, digits: string)
    requires (forall c <- zeros :: c == '0') && forall c <- digits :: IsDigit(c)
    ensures forall c <- zeros + digits :: IsDigit(c)
    ensures ValueOf(zeros + digits, 0) == ValueOf(digits, 0)
    decreases zeros
  {
    if zeros == "" {
      assert zeros + digits == digits;
    } else {
      assert (zeros + digits)[1..] == zeros[1..] + digits;
      assert zeros[0] in zeros && forall c <- zeros[1..] :: c in zeros;
      ValueOfZeros(zeros[1..], digits);
    }
  }

  /** `parse_nonnegative_int` on a run of digits reads its value. */
  lemma {:induction false} ParseDigits(s: string, i: nat, j: nat, acc: nat)
    requires i <= j <= |s| && (j == |s| || !IsDigit(s[j]))
    requires forall c <- s[i..j] :: IsDigit(c)
    requires ValueOf(s[i..j], acc) <= MAX_INT
    ensures ParseInt(s, i, acc) == Some((ValueOf(s[i..j], acc), j))
    decreases j - i
  {
    if i < j {
      assert s[i..j][1..] == s[i + 1..j] && s[i] == s[i..j][0];
      ParseDigits(s, i + 1, j, 10 * acc + DigitValue(s[i]));
    }
  }

  /** `s` has `text` at `i`. */
  predicate At(s: string, i: nat, text: string) {
    i + |text| <= |s| && s[i..i + |text|] == text
  }

  lemma {:induction false} AtConcat(s: string, i: nat, a: string, b: string)
    requires At(s, i, a + b)
    ensures At(s, i, a) && At(s, i + |a|, b)
  {
    assert s[i..i + |a|] == (a + b)[..|a|] == a;
    assert s[i + |a|..i + |a + b|] == (a + b)[|a|..] == b;
  }

  lemma {:induction false} CharOf(s: string, i: nat, text: string, k: nat)
    requires At(s, i, text) && k < |text|
    ensures i + k < |s| && s[i + k] == text[k] && text[k] in text
  {
    assert s[i + k] == s[i..i + |text|][k];
  }

  lemma {:induction false} DecimalRead(s: string, i: nat, n: nat)
    requires At(s, i, Decimal(n)) && n <= MAX_INT
    requires i + |Decimal(n)| < |s| ==> !IsDigit(s[i + |Decimal(n)|])
    ensures IsDigit(s[i]) && ParseInt(s, i, 0) == Some((n, i + |Decimal(n)|))
  {
    var digits := Decimal(n);
    var j := i + |digits|;
    DecimalValue(n);
    ParseDigits(s, i, j, 0);
    assert s[i] == s[i..j][0] && digits[0] in digits;
  }

  /** What is read are digits, worth what is read. */
  lemma {:induction false} DigitsOf(s: string, i: nat, acc: nat)
    requires i <= |s| && ParseInt(s, i, acc).Some?
    ensures var r := ParseInt(s, i, acc).value;
            (forall c <- s[i..r.1] :: IsDigit(c)) && ValueOf(s[i..r.1], acc) == r.0
    decreases |s| - i
  {
    if i < |s| && IsDigit(s[i]) {
      var j := ParseInt(s, i, acc).value.1;
      DigitsOf(s, i + 1, 10 * acc + DigitValue(s[i]));
      assert s[i..j][1..] == s[i + 1..j];
    } else {
      assert s[i..i] == "";
    }
  }

  lemma {:induction false} PositiveValue(digits: string)
    requires digits != "" && (forall c <- digits :: IsDigit(c)) && digits[0] != '0'
    ensures ValueOf(digits, 0) > 0
  {
    assert ValueOf(digits, 0) == ValueOf(digits[1..], DigitValue(digits[0]));
  }

  /** Digits without a leading zero are the decimal of their value. */
  lemma {:induction false} DecimalOf(digits: string)
    requires digits != "" && (forall c <- digits :: IsDigit(c)) && (digits[0] == '0' ==> |digits| == 1)
    ensures Decimal(ValueOf(digits, 0)) == digits
    decreases digits
  {
    var n := |digits| - 1;
    if n == 0 {
      assert digits[1..] == "";
    } else {
      var init, last := digits[..n], digits[n];
      assert digits == init + [last];
      PositiveValue(init);
      ValueOfAppend(init, last, 0);
      DecimalOf(init);
      hide ValueOf;
    }
  }
}
