/**
 * The validation chain of the `POST /usuarios` handler: eight checks run in a fixed
 * order, and the first one that fails decides the single error message.
 */
module Pipeline {
  import Cpf
  import opened Formats

  datatype Option<T> = None | Some(value: T)

  /** The fields of a registration submission, as the form posts them. */
  datatype Form = Form(
    nome: string, cpf: string, dataNascimento: string, sexo: string,
    estadoCivil: string, rendaMensal: string, logradouro: string,
    estado: string, cidade: string, numero: string, complemento: string)

  /** The handler's checks, one per error message. */
  datatype Check =
    | NameLength | CpfDigits | BirthDate | MaritalStatus
    | IncomeFormat | StreetLength | NumberFormat | CityLength

  /** The position of each check in the handler. */
  function Rank(c: Check): (k: nat)
    ensures k < |Order| && Order[k] == c
  {
    match c
    case NameLength => 0
    case CpfDigits => 1
    case BirthDate => 2
    case MaritalStatus => 3
    case IncomeFormat => 4
    case StreetLength => 5
    case NumberFormat => 6
    case CityLength => 7
  }

  /**
   * `validarDataNascimento`: the birth date lies strictly before the current moment.
   * `birth` is the timestamp the date string parses to, `None` for an invalid date,
   * whose comparison with any moment is false.
   */
  function ValidarDataNascimento(birth: Option<int>, now: int): (r: bool)
    ensures r <==> birth.Some? && birth.value < now
  {
    birth.Some? && birth.value < now
  }

  /** Whether the submission gets past check `c`. */
  predicate Passes(c: Check, f: Form, birth: Option<int>, now: int) {
    match c
    case NameLength => HasMinLength(f.nome)
    case CpfDigits => Cpf.IsValidCpf(f.cpf)
    case BirthDate => ValidarDataNascimento(birth, now)
    case MaritalStatus => ValidarEstadoCivil(f.estadoCivil)
    case IncomeFormat => ValidarRendaMensal(f.rendaMensal)
    case StreetLength => HasMinLength(f.logradouro)
    case NumberFormat => ValidarNumero(f.numero)
    case CityLength => HasMinLength(f.cidade)
  }

  /** The checks in the order the handler runs them. */
  const Order: seq<Check> :=
    [NameLength, CpfDigits, BirthDate, MaritalStatus, IncomeFormat, StreetLength, NumberFormat, CityLength]

  /** `c` fails and every check the handler runs before it passes. */
  ghost predicate FirstFailure(c: Check, f: Form, birth: Option<int>, now: int) {
    !Passes(c, f, birth, now) &&
    forall d :: d in Order[..Rank(c)] ==> Passes(d, f, birth, now)
  }

  /** The message the form is re-rendered with when check `c` is the one that fails. */
  function Message(c: Check): (m: string)
    ensures |m| > 0 && m[|m| - 1] == '.'
  {
    match c
    case NameLength => "Nome deve conter no mínimo 3 caracteres."
    case CpfDigits => "CPF inválido. O CPF deve estar no formato XXX.XXX.XXX-XX."
    case BirthDate => "Data de nascimento inválida."
    case MaritalStatus => "Estado civil inválido."
    case IncomeFormat => "Renda mensal inválida. Insira apenas valores numéricos com até duas casas decimais."
    case StreetLength => "Logradouro deve conter no mínimo 3 caracteres."
    case NumberFormat => "Número inválido. Insira apenas números inteiros."
    case CityLength => "Cidade deve conter no mínimo 3 caracteres."
  }

  /**
   * The chain of `if` tests of the handler, stopping at the first that fails.
   * `None` means every check passed and the user is to be added.
   */
  method Validate(f: Form, birth: Option<int>, now: int) returns (failed: Option<Check>)
    ensures failed.None? <==> forall c :: Passes(c, f, birth, now)
    ensures failed.Some? ==> FirstFailure(failed.value, f, birth, now)
  {
    if |f.nome| < 3 {
      assert !Passes(NameLength, f, birth, now);
      return Some(NameLength);
    }
    var cpfOk := Cpf.ValidarCpf(f.cpf);
    if !cpfOk {
      assert !Passes(CpfDigits, f, birth, now);
      return Some(CpfDigits);
    }
    if !ValidarDataNascimento(birth, now) {
      assert !Passes(BirthDate, f, birth, now);
      return Some(BirthDate);
    }
    if !ValidarEstadoCivil(f.estadoCivil) {
      assert !Passes(MaritalStatus, f, birth, now);
      return Some(MaritalStatus);
    }
    if !ValidarRendaMensal(f.rendaMensal) {
      assert !Passes(IncomeFormat, f, birth, now);
      return Some(IncomeFormat);
    }
    if |f.logradouro| < 3 {
      assert !Passes(StreetLength, f, birth, now);
      return Some(StreetLength);
    }
    if !ValidarNumero(f.numero) {
      assert !Passes(NumberFormat, f, birth, now);
      return Some(NumberFormat);
    }
    if |f.cidade| < 3 {
      assert !Passes(CityLength, f, birth, now);
      return Some(CityLength);
    }
    return None;
  }

  /** Each check has its own message, so the message tells which check failed. */
  lemma MessagesDistinct(c: Check, d: Check)
    requires c != d
    ensures Message(c) != Message(d)
  {
    MessageHasLength(c);
    MessageHasLength(d);
  }

  /** The length of each message; no two are the same. */
  function MessageLength(c: Check): nat {
    match c
    case NameLength => 40
    case CpfDigits => 57
    case BirthDate => 28
    case MaritalStatus => 22
    case IncomeFormat => 83
    case StreetLength => 46
    case NumberFormat => 48
    case CityLength => 42
  }

  lemma MessageHasLength(c: Check)
    ensures |Message(c)| == MessageLength(c)
  {
  }

  /** At most one check is the first to fail, so the error message is determined. */
  lemma FirstFailureUnique(c: Check, d: Check, f: Form, birth: Option<int>, now: int)
    requires FirstFailure(c, f, birth, now) && FirstFailure(d, f, birth, now)
    ensures c == d
  {
  }

  /** A name shorter than three characters is reported whatever the other fields hold. */
  lemma ShortNameReportedFirst(f: Form, birth: Option<int>, now: int)
    requires |f.nome| < 3
    ensures FirstFailure(NameLength, f, birth, now)
  {
  }
}
