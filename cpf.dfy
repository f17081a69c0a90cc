/**
 * The Brazilian CPF check-digit scheme as `validarCPF` implements it: strip every
 * non-digit, demand eleven digits that are not all the same, and compare the last
 * two digits with two mod-11 check digits computed from weighted sums.
 */
module Cpf {
  import opened Text

  /** The input with every non-digit character removed: the digits of `s`, in order. */
  function Digits(s: string): (d: string)
    ensures AllDigits(d) && |d| <= |s|
    ensures AllDigits(s) ==> d == s
  {
    assert AllDigits(s) ==> Keep(s, IsDigit) == s by {
      if AllDigits(s) {
        KeepAll(s, IsDigit);
      }
    }
    Keep(s, IsDigit)
  }

  /** Stripping works character by character: it distributes over concatenation. */
  lemma DigitsAppend(a: string, b: string)
    ensures Digits(a + b) == Digits(a) + Digits(b)
  {
    KeepAppend(a, b, IsDigit);
  }

  /** A single character survives stripping exactly when it is a digit. */
  lemma DigitsOne(c: char)
    ensures Digits([c]) == if IsDigit(c) then [c] else []
  {
    assert [c][1..] == [];
  }

  /**
   * The repeated-digit test on an eleven-digit string: every digit equals the first,
   * which is the same as any two digits being equal.
   */
  function AllSame(d: string): (r: bool)
    ensures r <==> forall j, k :: 0 <= j < k < |d| ==> d[j] == d[k]
  {
    forall k :: 0 <= k < |d| ==> d[k] == d[0]
  }

  /**
   * The weighted sum of the first `n` digits of `d` whose first weight is `top`:
   * the sum over k < n of d[k] * (top - k). The first check digit weighs the first
   * nine digits 10 down to 2, the second the first ten digits 11 down to 2.
   */
  function WeightedSum(d: string, n: nat, top: int): int
    requires n <= |d| && AllDigits(d)
  {
    if n == 0 then 0 else WeightedSum(d, n - 1, top) + DigitValue(d[n - 1]) * (top - (n - 1))
  }

  /**
   * Ten times the sum, modulo 11, with the remainders 10 and 11 mapped to 0. This is
   * the published form of the rule: 0 when the sum leaves a remainder below 2 modulo
   * 11, otherwise 11 minus that remainder.
   */
  function CheckDigit(sum: nat): (r: nat)
    ensures r <= 9
    ensures r == if sum % 11 < 2 then 0 else 11 - sum % 11
    ensures (sum * 10) % 11 < 10 ==> r == (sum * 10) % 11
    ensures (sum * 10) % 11 == 10 ==> r == 0
  {
    assert sum * 10 == 11 * (10 * (sum / 11)) + 10 * (sum % 11);
    assert (sum * 10) % 11 == (10 * (sum % 11)) % 11;
    var resto := (sum * 10) % 11;
    if resto == 10 || resto == 11 then 0 else resto
  }

  /** The weights in use are positive, so a sum over digits is never negative. */
  lemma {:induction false} WeightedSumNonNegative(d: string, n: nat, top: int)
    requires n <= |d| && AllDigits(d) && top >= n
    ensures WeightedSum(d, n, top) >= 0
  {
    if n > 0 {
      WeightedSumNonNegative(d, n - 1, top);
    }
  }

  /** The two check-digit comparisons on an eleven-digit string. */
  predicate ChecksumHolds(d: string)
    requires |d| == 11 && AllDigits(d)
  {
    WeightedSumNonNegative(d, 9, 10);
    WeightedSumNonNegative(d, 10, 11);
    DigitValue(d[9]) == CheckDigit(WeightedSum(d, 9, 10)) &&
    DigitValue(d[10]) == CheckDigit(WeightedSum(d, 10, 11))
  }

  /** What `validarCPF` accepts, stated on the digit subsequence of its input. */
  predicate IsValidCpf(s: string) {
    var d := Digits(s);
    |d| == 11 && !AllSame(d) && ChecksumHolds(d)
  }

  /** A weighted sum reads only the first `n` digits. */
  lemma {:induction false} WeightedSumOfPrefix(d: string, e: string, n: nat, top: int)
    requires n <= |d| && n <= |e| && AllDigits(d) && AllDigits(e)
    requires d[..n] == e[..n]
    ensures WeightedSum(d, n, top) == WeightedSum(e, n, top)
  {
    if n > 0 {
      assert d[n - 1] == d[..n][n - 1] == e[..n][n - 1] == e[n - 1];
      assert d[..n - 1] == d[..n][..n - 1] == e[..n][..n - 1] == e[..n - 1];
      WeightedSumOfPrefix(d, e, n - 1, top);
    }
  }

  /** `validarCPF`: two counting loops accumulate the weighted sums digit by digit. */
  method ValidarCpf(cpf: string) returns (ok: bool)
    ensures ok <==> IsValidCpf(cpf)
  {
    var d := Digits(cpf);
    if |d| != 11 {
      return false;
    }
    if AllSame(d) {
      return false;
    }
    var soma := 0;
    for i := 1 to 10
      invariant soma == WeightedSum(d, i - 1, 10)
    {
      soma := soma + DigitValue(d[i - 1]) * (11 - i);
    }
    WeightedSumNonNegative(d, 9, 10);
    var resto := (soma * 10) % 11;
    if resto == 10 || resto == 11 {
      resto := 0;
    }
    if resto != DigitValue(d[9]) {
      return false;
    }
    soma := 0;
    for i := 0 to 10
      invariant soma == WeightedSum(d, i, 11)
    {
      soma := soma + DigitValue(d[i]) * (11 - i);
    }
    WeightedSumNonNegative(d, 10, 11);
    resto := (soma * 10) % 11;
    if resto == 10 || resto == 11 {
      resto := 0;
    }
    if resto != DigitValue(d[10]) {
      return false;
    }
    return true;
  }

  /** On a string that is already all digits, the verdict is the length, all-equal and checksum tests. */
  lemma DigitStringVerdict(d: string)
    requires AllDigits(d)
    ensures IsValidCpf(d) <==> |d| == 11 && !AllSame(d) && ChecksumHolds(d)
  {
    KeepAll(d, IsDigit);
  }

  /** Removing the non-digits first changes nothing: only the digit subsequence matters. */
  lemma DependsOnlyOnDigits(s: string)
    ensures IsValidCpf(s) == IsValidCpf(Digits(s))
  {
    KeepAll(Digits(s), IsDigit);
  }

  /** Separators such as `.` and `-` may be inserted anywhere without changing the verdict. */
  lemma SeparatorsIrrelevant(a: string, sep: string, b: string)
    requires forall i :: 0 <= i < |sep| ==> !IsDigit(sep[i])
    ensures IsValidCpf(a + sep + b) == IsValidCpf(a + b)
  {
    KeepAppend(a + sep, b, IsDigit);
    KeepAppend(a, sep, IsDigit);
    KeepAppend(a, b, IsDigit);
    KeepNone(sep, IsDigit);
    assert Digits(a + sep + b) == Digits(a + b);
  }

  /** The total of the weights top down to top - n + 1. */
  function WeightTotal(n: nat, top: int): int {
    if n == 0 then 0 else WeightTotal(n - 1, top) + (top - (n - 1))
  }

  /** Over a run of one digit, the weighted sum is that digit times the total of the weights. */
  lemma {:induction false} WeightedSumUniform(d: string, n: nat, top: int)
    requires 0 < |d| && n <= |d| && AllDigits(d) && AllSame(d)
    ensures WeightedSum(d, n, top) == DigitValue(d[0]) * WeightTotal(n, top)
  {
    if n > 0 {
      WeightedSumUniform(d, n - 1, top);
      var v := DigitValue(d[0]);
      assert d[n - 1] == d[0];
      calc {
        WeightedSum(d, n, top);
        v * WeightTotal(n - 1, top) + v * (top - (n - 1));
        { assert v * WeightTotal(n - 1, top) + v * (top - (n - 1)) == v * (WeightTotal(n - 1, top) + (top - (n - 1))); }
        v * WeightTotal(n, top);
      }
    }
  }

  /**
   * Eleven copies of one digit pass both check-digit comparisons, and `validarCPF`
   * still rejects them because of the all-equal test.
   */
  lemma UniformPassesChecksumButIsRejected(d: string)
    requires |d| == 11 && AllDigits(d) && AllSame(d)
    ensures ChecksumHolds(d)
    ensures !IsValidCpf(d)
  {
    WeightedSumUniform(d, 9, 10);
    WeightedSumUniform(d, 10, 11);
    assert WeightTotal(9, 10) == 54 && WeightTotal(10, 11) == 65;
    var v := DigitValue(d[0]);
    assert d[9] == d[0] && d[10] == d[0];
    assert (v * 54 * 10) % 11 == v by {
      assert v * 54 * 10 == v + 11 * (49 * v);
    }
    assert (v * 65 * 10) % 11 == v by {
      assert v * 65 * 10 == v + 11 * (59 * v);
    }
    KeepAll(d, IsDigit);
  }

  /** The first check digit is determined by the first nine digits: changing the tenth alone rejects. */
  lemma ChangedFirstCheckDigitRejected(s: string, t: string)
    requires IsValidCpf(s)
    requires |Digits(t)| == 11 && Digits(t)[..9] == Digits(s)[..9]
    requires Digits(t)[9] != Digits(s)[9]
    ensures !IsValidCpf(t)
  {
    var d, e := Digits(s), Digits(t);
    WeightedSumOfPrefix(d, e, 9, 10);
    assert DigitValue(e[9]) != DigitValue(d[9]);
  }

  /** The second check digit is determined by the first ten digits: changing the eleventh alone rejects. */
  lemma ChangedSecondCheckDigitRejected(s: string, t: string)
    requires IsValidCpf(s)
    requires |Digits(t)| == 11 && Digits(t)[..10] == Digits(s)[..10]
    requires Digits(t)[10] != Digits(s)[10]
    ensures !IsValidCpf(t)
  {
    var d, e := Digits(s), Digits(t);
    WeightedSumOfPrefix(d, e, 10, 11);
    assert DigitValue(e[10]) != DigitValue(d[10]);
  }

  /** The check-digit arithmetic of the example CPF 529.982.247-25. */
  lemma ExampleChecksum()
    ensures AllDigits("52998224725")
    ensures WeightedSum("52998224725", 9, 10) == 295 && CheckDigit(295) == 2
    ensures WeightedSum("52998224725", 10, 11) == 347 && CheckDigit(347) == 5
    ensures ChecksumHolds("52998224725")
  {
  }

  /** The example CPF 529.982.247-25 is accepted. */
  lemma ExampleAccepted()
    ensures IsValidCpf("52998224725")
  {
    ExampleChecksum();
    DigitStringVerdict("52998224725");
    assert "52998224725"[1] != "52998224725"[0];
  }

  /**
   * The punctuated form XXX.XXX.XXX-XX that the error message asks for gets the same
   * verdict as the bare eleven digits.
   */
  lemma PunctuatedFormIrrelevant(a: string, b: string, c: string, e: string)
    ensures IsValidCpf(a + "." + b + "." + c + "-" + e) == IsValidCpf(a + b + c + e)
  {
    SeparatorsIrrelevant(a, ".", b + "." + c + "-" + e);
    SeparatorsIrrelevant(a + b, ".", c + "-" + e);
    SeparatorsIrrelevant(a + b + c, "-", e);
    assert a + "." + b + "." + c + "-" + e == a + "." + (b + "." + c + "-" + e);
    assert a + (b + "." + c + "-" + e) == (a + b) + "." + (c + "-" + e);
    assert (a + b) + (c + "-" + e) == (a + b + c) + "-" + e;
  }

  /** The example with its first check digit changed from 2 to 3 fails the first comparison. */
  lemma ExampleFirstAlteredChecksum()
    ensures AllDigits("52998224735") && !ChecksumHolds("52998224735")
  {
    assert WeightedSum("52998224735", 9, 10) == 295;
  }

  /** The example with its second check digit changed from 5 to 6 fails the second comparison. */
  lemma ExampleSecondAlteredChecksum()
    ensures AllDigits("52998224726") && !ChecksumHolds("52998224726")
  {
    assert WeightedSum("52998224726", 10, 11) == 347;
  }

  /** Changing the first check digit of the example makes it invalid. */
  lemma ExampleFirstCheckDigitAltered()
    ensures !IsValidCpf("52998224735")
  {
    ExampleFirstAlteredChecksum();
    DigitStringVerdict("52998224735");
  }

  /** Changing the second check digit of the example makes it invalid. */
  lemma ExampleSecondCheckDigitAltered()
    ensures !IsValidCpf("52998224726")
  {
    ExampleSecondAlteredChecksum();
    DigitStringVerdict("52998224726");
  }
}
