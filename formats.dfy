/**
 * The single-field validators of the registration form: the regular expressions of
 * `validarRendaMensal` and `validarNumero`, the free-text `validarComplemento`, the
 * minimum-length test and the closed set of marital statuses.
 */
module Formats {
  import opened Text

  /** How far `\d+` reaches from the start of `s`: the length of its longest all-digit prefix. */
  function DigitRun(s: string): (n: nat)
    ensures n <= |s| && AllDigits(s[..n])
    ensures n < |s| ==> !IsDigit(s[n])
  {
    if s != [] && IsDigit(s[0]) then
      var m := DigitRun(s[1..]);
      assert s[..1 + m] == [s[0]] + s[1..][..m];
      1 + m
    else
      0
  }

  /** `s` ends in a point followed by exactly `f` digits, and everything before the point is digits. */
  ghost predicate FractionForm(s: string, f: nat) {
    |s| >= f + 2 && s[|s| - f - 1] == '.' &&
    AllDigits(s[..|s| - f - 1]) && AllDigits(s[|s| - f..])
  }

  /** The language of `^\d+(\.\d{1,2})?$`: digits only, or digits, a point and one or two digits. */
  ghost predicate IncomeSyntax(s: string) {
    (|s| >= 1 && AllDigits(s)) || FractionForm(s, 1) || FractionForm(s, 2)
  }

  /** A run of digits ends exactly where a non-digit stands right after it. */
  lemma DigitRunStopsAt(s: string, k: nat)
    requires k < |s| && AllDigits(s[..k]) && !IsDigit(s[k])
    ensures DigitRun(s) == k
  {
  }

  /**
   * How a regular-expression engine matches `^\d+(\.\d{1,2})?$`: a greedy run of digits,
   * then either the end of the string or a point followed by one or two digits and the end.
   */
  predicate GreedyIncomeMatch(s: string) {
    var n := DigitRun(s);
    n >= 1 && (n == |s| || (s[n] == '.' && 2 <= |s| - n <= 3 && AllDigits(s[n + 1..])))
  }

  lemma {:induction false} GreedyMatchSound(s: string)
    requires GreedyIncomeMatch(s)
    ensures IncomeSyntax(s)
  {
    var n := DigitRun(s);
    if n == |s| {
      assert s[..n] == s;
    } else {
      assert FractionForm(s, |s| - n - 1);
    }
  }

  lemma {:induction false} GreedyMatchComplete(s: string)
    requires IncomeSyntax(s)
    ensures GreedyIncomeMatch(s)
  {
    if FractionForm(s, 1) {
      DigitRunStopsAt(s, |s| - 2);
    } else if FractionForm(s, 2) {
      DigitRunStopsAt(s, |s| - 3);
    } else {
      assert s[..|s|] == s;
    }
  }

  /** `validarRendaMensal`: accepts exactly the language of its regular expression. */
  function ValidarRendaMensal(s: string): (r: bool)
    ensures r <==> IncomeSyntax(s)
  {
    assert GreedyIncomeMatch(s) <==> IncomeSyntax(s) by {
      if GreedyIncomeMatch(s) {
        GreedyMatchSound(s);
      }
      if IncomeSyntax(s) {
        GreedyMatchComplete(s);
      }
    }
    GreedyIncomeMatch(s)
  }

  /** `validarNumero`, `^[0-9]+$`: one or more digits and nothing else. */
  function ValidarNumero(s: string): (r: bool)
    ensures r <==> |s| >= 1 && AllDigits(s)
  {
    var n := DigitRun(s);
    assert n == |s| ==> s[..n] == s;
    assert n < |s| ==> !IsDigit(s[n]);
    |s| >= 1 && n == |s|
  }

  /** `validarComplemento`: the complement is free text, every value is accepted. */
  function ValidarComplemento(s: string): (r: bool)
    ensures r
  {
    true
  }

  /** What the name, street and city tests accept: at least three characters. */
  function HasMinLength(s: string): (r: bool)
    ensures r <==> 3 <= |s|
  {
    |s| >= 3
  }

  /** The five marital statuses the form may submit, compared exactly. */
  const EstadosCivisValidos: seq<string> :=
    ["Solteiro(a)", "Casado(a)", "Separado(a)", "Divorciado(a)", "Viúvo(a)"]

  function ValidarEstadoCivil(s: string): (r: bool)
    ensures r <==> s == "Solteiro(a)" || s == "Casado(a)" || s == "Separado(a)" ||
                   s == "Divorciado(a)" || s == "Viúvo(a)"
  {
    s in EstadosCivisValidos
  }

  /** The income examples: "1234.56" and "1234" are accepted, "1234.567" and "abc" are not. */
  lemma RendaMensalExamples()
    ensures ValidarRendaMensal("1234.56")
    ensures ValidarRendaMensal("1234")
    ensures !ValidarRendaMensal("1234.567")
    ensures !ValidarRendaMensal("abc")
  {
    assert FractionForm("1234.56", 2);
    assert AllDigits("1234");
    assert !IsDigit("1234.567"[4]) && "1234.567"[5] != '.' && "1234.567"[6] != '.';
    assert !IsDigit("abc"[0]) && "abc"[1] != '.';
  }
}
