/**
 * The in-memory user list: appending a validated submission with the next id and a
 * derived e-mail, and deleting by id followed by renumbering, which keeps the ids
 * exactly 1..N.
 */
module Registry {
  import opened Text
  import opened Pipeline

  /** The fields only a submitted user has; the two seeded users lack them. */
  datatype Details = Details(
    estadoCivil: string, rendaMensal: string, logradouro: string,
    estado: string, cidade: string, numero: string, complemento: string)

  datatype User = User(
    id: int, nome: string, email: string, dataNascimento: string, sexo: string,
    details: Option<Details>)

  const EmailDomain: string := "@gmail.com"

  /** The derived e-mail: the name lowered, all whitespace removed, then the fixed domain. */
  function EmailFor(nome: string): (e: string)
    ensures |e| == |Keep(Lower(nome), NotSpace)| + |EmailDomain| <= |nome| + |EmailDomain|
    ensures e[|e| - |EmailDomain|..] == EmailDomain
    ensures forall i :: 0 <= i < |e| - |EmailDomain| ==> !IsSpace(e[i]) && !IsUpper(e[i])
  {
    var local := Keep(Lower(nome), NotSpace);
    assert forall i :: 0 <= i < |local| ==> local[i] in Lower(nome) by {
      KeepFrom(Lower(nome), NotSpace);
    }
    local + EmailDomain
  }

  lemma LowerAppend(a: string, b: string)
    ensures Lower(a + b) == Lower(a) + Lower(b)
  {
    assert forall i :: 0 <= i < |a + b| ==> Lower(a + b)[i] == (Lower(a) + Lower(b))[i];
  }

  /** Whitespace anywhere in the name leaves no trace in the e-mail. */
  lemma EmailIgnoresWhitespace(a: string, w: string, b: string)
    requires forall i :: 0 <= i < |w| ==> IsSpace(w[i])
    ensures EmailFor(a + w + b) == EmailFor(a + b)
  {
    LowerAppend(a + w, b);
    LowerAppend(a, w);
    LowerAppend(a, b);
    KeepAppend(Lower(a) + Lower(w), Lower(b), NotSpace);
    KeepAppend(Lower(a), Lower(w), NotSpace);
    KeepAppend(Lower(a), Lower(b), NotSpace);
    KeepNone(Lower(w), NotSpace);
  }

  /** The e-mail does not depend on the case of the name's letters. */
  lemma EmailIgnoresCase(nome: string)
    ensures EmailFor(Lower(nome)) == EmailFor(nome)
  {
    assert Lower(Lower(nome)) == Lower(nome);
  }

  /** A name already in lower case and without whitespace is used as it is. */
  lemma EmailOfPlainName(nome: string)
    requires forall i :: 0 <= i < |nome| ==> !IsSpace(nome[i]) && !IsUpper(nome[i])
    ensures EmailFor(nome) == nome + EmailDomain
  {
    assert Lower(nome) == nome;
    KeepAll(nome, NotSpace);
  }

  /** The record the handler pushes for a validated submission. */
  function NewUser(id: int, f: Form): (u: User)
    ensures u.id == id && u.nome == f.nome && u.email == EmailFor(f.nome)
    ensures u.dataNascimento == f.dataNascimento && u.sexo == f.sexo
    ensures u.details == Some(Details(f.estadoCivil, f.rendaMensal, f.logradouro, f.estado,
                                      f.cidade, f.numero, f.complemento))
  {
    User(id, f.nome, EmailFor(f.nome), f.dataNascimento, f.sexo,
         Some(Details(f.estadoCivil, f.rendaMensal, f.logradouro, f.estado,
                      f.cidade, f.numero, f.complemento)))
  }

  /** The contiguous-identifier invariant: the user at position i has id i + 1. */
  predicate Contiguous(users: seq<User>) {
    forall i :: 0 <= i < |users| ==> users[i].id == i + 1
  }

  /** `a` and `b` are the same record apart from, perhaps, the id. */
  predicate SameExceptId(a: User, b: User) {
    a.(id := b.id) == b
  }

  /** The list without every record whose id is `id`, the others in their order. */
  function Without(users: seq<User>, id: int): (r: seq<User>)
    ensures |r| <= |users|
    ensures forall i :: 0 <= i < |r| ==> r[i].id != id && r[i] in users
  {
    if users == [] then []
    else if users[0].id != id then [users[0]] + Without(users[1..], id)
    else Without(users[1..], id)
  }

  /** Conversely, every record whose id differs is kept. */
  lemma {:induction false} WithoutKeeps(users: seq<User>, id: int)
    ensures forall i :: 0 <= i < |users| && users[i].id != id ==> users[i] in Without(users, id)
  {
    if users != [] {
      WithoutKeeps(users[1..], id);
      assert forall i :: 1 <= i < |users| ==> users[i] == users[1..][i - 1];
    }
  }

  /** The filter works record by record: it distributes over concatenation, keeping the order. */
  lemma {:induction false} WithoutAppend(a: seq<User>, b: seq<User>, id: int)
    ensures Without(a + b, id) == Without(a, id) + Without(b, id)
  {
    if a == [] {
      assert a + b == b;
    } else {
      assert (a + b)[1..] == a[1..] + b;
      WithoutAppend(a[1..], b, id);
    }
  }

  /** Every record renumbered with its 1-based position as id. */
  function Reindexed(users: seq<User>): (r: seq<User>)
    ensures |r| == |users| && Contiguous(r)
    ensures forall i :: 0 <= i < |r| ==> SameExceptId(r[i], users[i])
  {
    seq(|users|, i requires 0 <= i < |users| => users[i].(id := i + 1))
  }

  /** With no record carrying the id, the filter keeps every record, in order. */
  lemma {:induction false} WithoutAbsent(users: seq<User>, id: int)
    requires forall i :: 0 <= i < |users| ==> users[i].id != id
    ensures Without(users, id) == users
  {
    if users != [] {
      WithoutAbsent(users[1..], id);
    }
  }

  /** On a run of consecutive ids starting at `base`, the filter cuts out the one record with the id. */
  lemma {:induction false} WithoutRun(users: seq<User>, base: int, id: int)
    requires forall i :: 0 <= i < |users| ==> users[i].id == base + i
    requires base <= id < base + |users|
    ensures Without(users, id) == users[..id - base] + users[id - base + 1..]
  {
    if users[0].id == id {
      WithoutAbsent(users[1..], id);
    } else {
      WithoutRun(users[1..], base + 1, id);
      assert users[..id - base] == [users[0]] + users[1..][..id - base - 1];
      assert users[id - base + 1..] == users[1..][id - base..];
    }
  }

  /** Renumbering a list that is already contiguous changes nothing. */
  lemma ReindexContiguous(users: seq<User>)
    requires Contiguous(users)
    ensures Reindexed(users) == users
  {
    assert forall i :: 0 <= i < |users| ==> Reindexed(users)[i] == users[i];
  }

  /**
   * Deleting id k (1 <= k <= N) from ids 1..N: the record at position k is gone, the
   * ones before it are untouched, the ones after it move down by one and get their
   * new position as id, and the ids are 1..N-1.
   */
  lemma DeleteExisting(users: seq<User>, k: int)
    requires Contiguous(users) && 1 <= k <= |users|
    ensures var r := Reindexed(Without(users, k));
      |r| == |users| - 1 && Contiguous(r) &&
      (forall i :: 0 <= i < k - 1 ==> r[i] == users[i]) &&
      (forall i :: k - 1 <= i < |r| ==> r[i] == users[i + 1].(id := i + 1))
  {
    WithoutRun(users, 1, k);
    var kept := users[..k - 1] + users[k..];
    assert forall i :: 0 <= i < k - 1 ==> kept[i] == users[i];
    assert forall i :: k - 1 <= i < |kept| ==> kept[i] == users[i + 1];
  }

  /** Deleting an id that no record has leaves a contiguous list exactly as it was. */
  lemma DeleteMissing(users: seq<User>, id: int)
    requires Contiguous(users) && !(1 <= id <= |users|)
    ensures Reindexed(Without(users, id)) == users
  {
    WithoutAbsent(users, id);
    ReindexContiguous(users);
  }

  /** The two users the list starts with. */
  const Seed: seq<User> := [
    User(1, "Usuário 1", "usuario1@gmail.com", "1990-01-01", "Masculino", None),
    User(2, "Usuário 2", "usuario2@gmail.com", "1995-05-05", "Feminino", None)
  ]

  /** What the handler sends back: the form again with one message, or the user list. */
  datatype Outcome =
    | RenderForm(failed: Check, mensagemErro: string, dadosFormulario: Form)
    | RedirectToList

  /** The module-level `users` list and the handlers that change it. */
  class UserRegistry {
    var users: seq<User>

    predicate Valid()
      reads this
    {
      Contiguous(users)
    }

    constructor ()
      ensures Valid() && users == Seed
    {
      users := Seed;
    }

    /** Adds the submitted user at the end with the next id, the list length plus one. */
    method Append(f: Form)
      requires Valid()
      modifies this
      ensures Valid()
      ensures users == old(users) + [NewUser(|old(users)| + 1, f)]
    {
      users := users + [NewUser(|users| + 1, f)];
    }

    /** The `DELETE /usuarios/:id` handler: filter out the id, then renumber in place. */
    method Delete(id: int)
      modifies this
      ensures Valid()
      ensures users == Reindexed(Without(old(users), id))
    {
      users := Without(users, id);
      ghost var kept := users;
      var index := 0;
      while index < |users|
        invariant 0 <= index <= |users| == |kept|
        invariant users[..index] == Reindexed(kept)[..index]
        invariant users[index..] == kept[index..]
      {
        users := users[index := users[index].(id := index + 1)];
        index := index + 1;
      }
      assert users == users[..index];
    }

    /**
     * The `POST /usuarios` handler: on the first failing check the form comes back with
     * that check's message and the list is unchanged; otherwise the user is appended.
     */
    method Submit(f: Form, birth: Option<int>, now: int) returns (outcome: Outcome)
      requires Valid()
      modifies this
      ensures Valid()
      ensures outcome == RedirectToList <==> forall c :: Passes(c, f, birth, now)
      ensures outcome.RenderForm? ==>
        FirstFailure(outcome.failed, f, birth, now) &&
        outcome.mensagemErro == Message(outcome.failed) &&
        outcome.dadosFormulario == f &&
        users == old(users)
      ensures outcome == RedirectToList ==> users == old(users) + [NewUser(|old(users)| + 1, f)]
    {
      var failed := Validate(f, birth, now);
      if failed.Some? {
        return RenderForm(failed.value, Message(failed.value), f);
      }
      Append(f);
      return RedirectToList;
    }
  }
}
