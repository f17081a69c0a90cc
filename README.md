# User registration with CPF validation — a Dafny model

The system is a small web application that keeps a list of users in memory. It accepts new
registrations through a form and deletes users by id. This project models its logic in
Dafny and proves properties of that model:

- **CPF validation** (module `Cpf`). This is the Brazilian taxpayer number check. The input's
  non-digits are removed. Exactly eleven digits must remain, and they must not all be the
  same. Digits 10 and 11 must equal two mod-11 check digits. `ValidarCpf` keeps the two
  counting loops of `validarCPF` and is proved equal to the predicate `IsValidCpf`, which
  states the scheme directly.
- **Field formats** (module `Formats`). The monthly-income and house-number regular
  expressions become functions. Each is proved to accept exactly a declarative description
  of its language. Also here: the free-text complement, the minimum-length test and the
  five marital statuses.
- **Submission pipeline** (module `Pipeline`). Eight checks run in a fixed order. `Validate`
  returns the first one that fails, or nothing when all pass.
- **User registry** (module `Registry`). The class `UserRegistry` holds the list as a
  `seq<User>`. `Append` adds a user with id N + 1. `Delete` filters out an id and then
  renumbers every record in a loop. The class invariant `Valid()` says the ids are exactly
  1..N, and every method keeps it. `Submit` runs the pipeline. When a check fails, the list
  stays the same. Otherwise the new user is appended.

Module `Text` holds the character classes (ASCII digits, whitespace, lower case) and an
order-preserving filter `Keep` with its algebra. These are shared by the CPF digit stripping
and the e-mail derivation.

Where the code and its comments differ, the model follows the code:

- The delete handler removes every record with the given id, while the comment at
  app.js:79 speaks of a single user. On a list whose ids are 1..N there is at most one
  such record, and `DeleteExisting` states the result.
- The complement validator is defined but the submission handler never calls it. `Validate`
  leaves it out, as the handler does.

## Model

| member | source | states |
|---|---|---|
| `Cpf.ValidarCpf` | app.js:26-62 | returns true exactly when `IsValidCpf` holds: 11 digits after stripping, not all equal, both check digits match |
| `Cpf.Digits` | app.js:28 | the stripped string holds only digits and is no longer than the input; a string of digits alone is left unchanged |
| `Cpf.DigitsAppend` | app.js:27-28 | stripping a concatenation strips each part and keeps their order |
| `Cpf.DigitsOne` | app.js:27-28 | a single character is kept exactly when it is a digit; with `DigitsAppend` this fixes the stripped string for every input |
| `Cpf.AllSame` | app.js:34 | the repeated-digit test holds exactly when any two digits are equal |
| `Cpf.CheckDigit` | app.js:44-46 | the check digit is 0..9. It agrees with the published mod-11 rule: 0 when sum mod 11 is below 2, else 11 − (sum mod 11). So the branch for remainder 11 can never run |
| `Cpf.DigitStringVerdict` | app.js:30-61 | on an all-digit string the verdict is: length 11, not all equal, and both check-digit comparisons hold |
| `Cpf.DependsOnlyOnDigits` | app.js:28-31 | the verdict on a string equals the verdict on its digit subsequence |
| `Cpf.SeparatorsIrrelevant` | app.js:28 | inserting any digit-free text anywhere leaves the verdict unchanged |
| `Cpf.PunctuatedFormIrrelevant` | app.js:124-127 | the XXX.XXX.XXX-XX form named in the error message gets the same verdict as the bare digits |
| `Cpf.WeightedSumOfPrefix` | app.js:40-42 | a weighted sum depends only on the first n digits it reads |
| `Cpf.UniformPassesChecksumButIsRejected` | app.js:34 | eleven equal digits pass both checksum comparisons, yet the string is rejected |
| `Cpf.ChangedFirstCheckDigitRejected` | app.js:40-48 | if a string is valid, another with the same first nine digits and a different tenth is invalid |
| `Cpf.ChangedSecondCheckDigitRejected` | app.js:50-59 | if a string is valid, another with the same first ten digits and a different eleventh is invalid |
| `Cpf.ExampleChecksum` | app.js:37-59 | for 52998224725 the weighted sums are 295 and 347, the check digits are 2 and 5, and both comparisons hold |
| `Cpf.ExampleAccepted` | app.js:26-62 | 52998224725 is a valid CPF |
| `Cpf.ExampleFirstAlteredChecksum` | app.js:44-48 | 52998224735 fails the first check-digit comparison |
| `Cpf.ExampleFirstCheckDigitAltered` | app.js:48 | 52998224735 (tenth digit changed) is rejected |
| `Cpf.ExampleSecondAlteredChecksum` | app.js:55-59 | 52998224726 fails the second check-digit comparison |
| `Cpf.ExampleSecondCheckDigitAltered` | app.js:59 | 52998224726 (eleventh digit changed) is rejected |
| `Formats.DigitRun` | app.js:91 | the greedy digit run is the longest all-digit prefix: all digits up to n, and a non-digit at n when n is inside the string |
| `Formats.GreedyMatchSound` | app.js:91 | whatever the greedy match accepts is in the income language |
| `Formats.GreedyMatchComplete` | app.js:91 | every string of the income language is accepted by the greedy match |
| `Formats.ValidarRendaMensal` | app.js:89-92 | true exactly for one or more digits, optionally followed by a point and one or two digits |
| `Formats.ValidarNumero` | app.js:95-97 | true exactly for a non-empty all-digit string |
| `Formats.ValidarComplemento` | app.js:100-103 | always true |
| `Formats.ValidarEstadoCivil` | app.js:135-136 | true exactly for the five listed marital statuses |
| `Formats.RendaMensalExamples` | app.js:89-92 | "1234.56" and "1234" are accepted; "1234.567" and "abc" are rejected |
| `Formats.HasMinLength` | app.js:120-156 | the name, street and city tests (app.js:120, 146, 156) accept exactly strings of at least 3 characters |
| `Pipeline.ValidarDataNascimento` | app.js:66-70 | true exactly when the date parsed and lies strictly before the current moment, so an unparsable date is rejected |
| `Pipeline.Message` | app.js:121-157 | holds the handler's eight error texts, one per check; as a side fact, each is non-empty and ends in a full stop |
| `Pipeline.MessagesDistinct` | app.js:121-157 | no two checks share a message, so the message shown identifies the failed check |
| `Pipeline.Validate` | app.js:119-158 | returns nothing exactly when all eight checks pass; otherwise it returns a failing check, and every check run before it passes |
| `Pipeline.FirstFailureUnique` | app.js:119-158 | at most one check is the first to fail, so the error message is determined |
| `Pipeline.ShortNameReportedFirst` | app.js:120-122 | a name shorter than 3 characters is the reported failure, whatever the other fields hold |
| `Registry.EmailFor` | app.js:161 | the e-mail ends in @gmail.com; before that it has no whitespace and no upper-case letter; its length is at most the name's length plus the domain's |
| `Registry.EmailIgnoresWhitespace` | app.js:161 | inserting whitespace anywhere in the name leaves the e-mail unchanged |
| `Registry.EmailIgnoresCase` | app.js:161 | lowering the name first leaves the e-mail unchanged |
| `Registry.EmailOfPlainName` | app.js:161 | a lower-case name without whitespace becomes the e-mail followed by @gmail.com |
| `Registry.NewUser` | app.js:161 | the new record has the given id, the submitted name, birth date and sex, the derived e-mail, and the seven other submitted fields as its details |
| `Registry.Without` | app.js:79 | the filtered list is no longer than the input; every record in it comes from the input and has a different id |
| `Registry.WithoutKeeps` | app.js:79 | every record whose id differs from the given one is kept |
| `Registry.WithoutAppend` | app.js:79 | the filter works record by record: on a concatenation it filters each part and keeps their order |
| `Registry.Reindexed` | app.js:81-83 | the renumbered list has the same length, ids 1..N, and every record is unchanged apart from its id |
| `Registry.WithoutAbsent` | app.js:79 | when no record has the id, the filter returns the same records in the same order |
| `Registry.WithoutRun` | app.js:79 | on consecutive ids, the filter cuts out exactly the one record with that id |
| `Registry.ReindexContiguous` | app.js:81-83 | renumbering a list whose ids are already 1..N changes nothing |
| `Registry.DeleteExisting` | app.js:77-85 | deleting id k from ids 1..N gives ids 1..N−1: earlier records are untouched, later ones move down one with only their id changed |
| `Registry.DeleteMissing` | app.js:77-85 | deleting an id outside 1..N from a list with ids 1..N is a no-op |
| `Registry.UserRegistry.constructor` | app.js:20-23 | the list starts as the two seed users, with ids 1 and 2 |
| `Registry.UserRegistry.Append` | app.js:161-162 | the new user goes at the end with id old length + 1; earlier records are untouched; ids stay 1..N |
| `Registry.UserRegistry.Delete` | app.js:77-85 | the new list is the old one filtered by id and then renumbered; ids are 1..N afterwards |
| `Registry.UserRegistry.Submit` | app.js:116-164 | on the first failing check: that check's message, the submitted form echoed back, list unchanged. Appends the user exactly when all checks pass |

## Left out

- HTTP and view plumbing is not modelled. This covers the framework setup, the middleware, the method override, template rendering, redirects and the listening server (app.js:1-17, 73-75, 111-113, 166-168, 181-183). `Submit` returns an `Outcome` that says whether the form is rendered again (with its message and the submitted fields) or the client is sent to the list.
- The second `DELETE /usuarios/:id` route (app.js:172-179) is identical to the first, and the framework never reaches it. Its logic is modelled once, as `UserRegistry.Delete`.
- Birth-date validation depends on the wall clock and on the platform's date parsing. `ValidarDataNascimento` therefore takes the already-parsed timestamp (`None` for an unparsable date, which compares false) and the current moment as parameters.
- Parsing the route id is not modelled. The id is an `int` parameter holding what `parseInt` reads from the start of the path segment, so "2abc" and " 2" both delete user 2. An id with no leading number parses to NaN, which matches no record. That is the same as an `int` that no record has.
- Lower-casing and whitespace use ASCII only. `LowerChar` lowers A–Z, and `IsSpace` accepts space and tab through carriage return. Unicode case mappings and Unicode spaces are not modelled.
- String lengths are sequence lengths of Unicode scalar values, not UTF-16 code units. A name containing a character outside the Basic Multilingual Plane would count differently in the length tests.
- Request bodies whose values are not strings are not modelled, like the body-parsing middleware itself (app.js:12); every `Form` field is a string. A JSON number as street or city has no length, passes its check and is stored; as a name it passes the length check, and if every other check passes, the e-mail derivation throws. Missing form fields are not modelled either. In the handler, a missing `nome`, `cpf`, `logradouro` or `cidade` throws (app.js:120, 28, 146, 156). A missing `dataNascimento`, `estadoCivil`, `rendaMensal` or `numero` fails its own check with the usual message. A missing `sexo`, `estado` or `complemento` is stored as undefined in the appended user.
- The records are modelled as values. The handler changes each user object's id in place. Nothing else holds these objects, so the value model loses nothing observable.
- `Registry.EmailFor`: its contract gives the e-mail's shape, not its exact text. The exact content is pinned down by `EmailIgnoresWhitespace`, `EmailIgnoresCase` and `EmailOfPlainName`.
