/**
 * Money is an integer number of cents. This module holds the sum of a list of
 * amounts, the floor split with the remainder on the last part (used both when
 * installments are built and when an edit redistributes the later rows), and
 * the sanitiser that turns the text of a money field into cents.
 */
module Money {

  /** Left fold of `+` from 0, the `reduce((sum, x) => sum + x, 0)` of the dialog. */
  function Sum(xs: seq<int>): int {
    if xs == [] then 0 else Sum(xs[..|xs| - 1]) + xs[|xs| - 1]
  }

  lemma {:induction false} SumAppend(a: seq<int>, b: seq<int>)
    ensures Sum(a + b) == Sum(a) + Sum(b)
    decreases |b|
  {
    if b == [] {
      assert a + b == a;
    } else {
      assert (a + b)[..|a + b| - 1] == a + b[..|b| - 1];
      assert (a + b)[|a + b| - 1] == b[|b| - 1];
      SumAppend(a, b[..|b| - 1]);
    }
  }

  lemma {:induction false} SumConstant(x: int, k: nat)
    ensures Sum(seq(k, _ => x)) == k * x
  {
    if k > 0 {
      assert seq(k, _ => x)[..k - 1] == seq(k - 1, _ => x);
      SumConstant(x, k - 1);
    }
  }

  /**
   * Part `i` of `total` split into `n` parts: `Math.floor(total / n)`, and on
   * the last part also the remainder `total - floor(total / n) * n`.
   * Dafny's `/` on `int` is floor division for a positive divisor.
   */
  function ShareAt(total: int, n: nat, i: nat): int
    requires i < n
  {
    var share := total / n;
    var rest := total - share * n;
    if i == n - 1 then share + rest else share
  }

  /**
   * `total` split into `n` parts. Every part but the last is the floor of
   * `total / n`, and the last one exceeds it by less than `n`.
   */
  function Split(total: int, n: nat): (r: seq<int>)
    ensures |r| == n
    ensures forall i :: 0 <= i < n - 1 ==> r[i] == r[0] && r[i] * n <= total < (r[i] + 1) * n
    ensures n > 0 ==> 0 <= r[n - 1] - r[0] < n
  {
    seq(n, i requires 0 <= i < n => ShareAt(total, n, i))
  }

  /** Splitting loses nothing: the parts add up to the total, whatever its sign. */
  lemma SplitSum(total: int, n: nat)
    requires n >= 1
    ensures Sum(Split(total, n)) == total
  {
    var s, share := Split(total, n), total / n;
    assert s == seq(n - 1, _ => share) + [s[n - 1]];
    SumAppend(seq(n - 1, _ => share), [s[n - 1]]);
    SumConstant(share, n - 1);
    assert (n - 1) * share + share == n * share;
  }

  /** Splitting 1000 cents in three gives 333, 333 and 334. */
  lemma SplitThousandInThree()
    ensures Split(1000, 3) == [333, 333, 334]
  {
  }

  // ---------------------------------------------------------------------
  // Money-field sanitiser: `Number(text.replace(/\D/g, ''))`.

  predicate IsDigit(c: char) {
    '0' <= c <= '9'
  }

  /** The text with every character that is not an ASCII digit removed. */
  function KeepDigits(s: string): (r: string)
    ensures forall i :: 0 <= i < |r| ==> IsDigit(r[i])
    ensures |r| <= |s|
  {
    if s == [] then []
    else if IsDigit(s[|s| - 1]) then KeepDigits(s[..|s| - 1]) + [s[|s| - 1]]
    else KeepDigits(s[..|s| - 1])
  }

  function DigitValue(c: char): nat
    requires IsDigit(c)
  {
    c as int - '0' as int
  }

  /** The value of a string of decimal digits; the empty string is 0. */
  function DigitsValue(s: string): nat
    requires forall i :: 0 <= i < |s| ==> IsDigit(s[i])
  {
    if s == [] then 0 else DigitsValue(s[..|s| - 1]) * 10 + DigitValue(s[|s| - 1])
  }

  /** A money field's text as cents; text without any digit is 0. */
  function Sanitize(s: string): (cents: nat)
    ensures (forall i :: 0 <= i < |s| ==> !IsDigit(s[i])) ==> cents == 0
  {
    NoDigitsKeepsNothing(s);
    DigitsValue(KeepDigits(s))
  }

  lemma {:induction false} NoDigitsKeepsNothing(s: string)
    ensures (forall i :: 0 <= i < |s| ==> !IsDigit(s[i])) ==> KeepDigits(s) == []
  {
    if s != [] {
      NoDigitsKeepsNothing(s[..|s| - 1]);
    }
  }

  lemma {:induction false} KeepDigitsAppend(a: string, b: string)
    ensures KeepDigits(a + b) == KeepDigits(a) + KeepDigits(b)
    decreases |b|
  {
    if b == [] {
      assert a + b == a;
    } else {
      assert (a + b)[..|a + b| - 1] == a + b[..|b| - 1];
      assert (a + b)[|a + b| - 1] == b[|b| - 1];
      KeepDigitsAppend(a, b[..|b| - 1]);
    }
  }

  lemma {:induction false} KeepDigitsOfDigits(s: string)
    requires forall i :: 0 <= i < |s| ==> IsDigit(s[i])
    ensures KeepDigits(s) == s
  {
    if s != [] {
      KeepDigitsOfDigits(s[..|s| - 1]);
    }
  }

  /** Text made only of digits is read as its decimal value. */
  lemma DigitsSanitize(s: string)
    requires forall i :: 0 <= i < |s| ==> IsDigit(s[i])
    ensures Sanitize(s) == DigitsValue(s)
  {
    KeepDigitsOfDigits(s);
  }

  /** Sanitising is idempotent on the kept digits. */
  lemma KeepDigitsIdempotent(s: string)
    ensures KeepDigits(KeepDigits(s)) == KeepDigits(s)
  {
    KeepDigitsOfDigits(KeepDigits(s));
  }

  /** A character that is not a digit (a currency sign, a separator) does not change the value. */
  lemma SanitizeIgnoresNonDigit(a: string, c: char, b: string)
    requires !IsDigit(c)
    ensures Sanitize(a + [c] + b) == Sanitize(a + b)
  {
    KeepDigitsAppend(a + [c], b);
    KeepDigitsAppend(a, [c]);
    assert [c][..0] == [];
    KeepDigitsAppend(a, b);
  }

  /** The decimal digits of `n`, most significant first. */
  function Decimal(n: nat): (r: string)
    ensures |r| >= 1
    ensures forall i :: 0 <= i < |r| ==> IsDigit(r[i])
  {
    var last := [('0' as int + n % 10) as char];
    if n < 10 then last else Decimal(n / 10) + last
  }

  /** Reading back the decimal digits of an amount gives the amount. */
  lemma {:induction false} SanitizeDecimal(n: nat)
    ensures Sanitize(Decimal(n)) == n
  {
    var s := Decimal(n);
    KeepDigitsOfDigits(s);
    if n < 10 {
      assert s[..0] == [];
      assert DigitsValue(s) == DigitValue(s[0]) == n;
    } else {
      SanitizeDecimal(n / 10);
      KeepDigitsOfDigits(Decimal(n / 10));
      assert s[..|s| - 1] == Decimal(n / 10);
    }
  }

}
