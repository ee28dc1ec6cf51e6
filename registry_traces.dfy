/** What the registry does over any sequence of registration calls: the
    registry invariant is kept, no record is ever overwritten or removed, a
    call succeeds exactly when it is the first for its caller, and the record
    that stays is the one from that first call. */
module RegistryTraces {
  import opened UsuariosSistema

  /** One call of `registrar_usuario`, with the caller made explicit. */
  datatype Registration = Registration(caller: AccountId, nombre: string, apellido: string, email: string, rol: Rol)

  /** The answers to a sequence of calls and the registry left at the end. */
  datatype Run = Run(results: seq<Result<()>>, usuarios: map<AccountId, Usuario>)

  function Record(req: Registration): Usuario
  {
    Usuario(req.nombre, req.apellido, req.email, req.caller, req.rol)
  }

  /** Performs the calls in order, each against the registry the previous one left. */
  function RunAll(usuarios: map<AccountId, Usuario>, reqs: seq<Registration>): (o: Run)
    ensures |o.results| == |reqs|
    decreases |reqs|
  {
    if reqs == [] then Run([], usuarios)
    else
      var step := RegisterStep(usuarios, reqs[0].nombre, reqs[0].apellido, reqs[0].email, reqs[0].rol, reqs[0].caller);
      var rest := RunAll(step.usuarios, reqs[1..]);
      Run([step.result] + rest.results, rest.usuarios)
  }

  /** Call `i` is the first of the sequence made by its caller. */
  ghost predicate FirstCall(reqs: seq<Registration>, i: int)
    requires 0 <= i < |reqs|
  {
    forall j :: 0 <= j < i ==> reqs[j].caller != reqs[i].caller
  }

  /** Every record already present survives a run unchanged. */
  lemma {:induction false} RunKeepsRecords(usuarios: map<AccountId, Usuario>, reqs: seq<Registration>)
    ensures forall k :: k in usuarios ==>
              k in RunAll(usuarios, reqs).usuarios && RunAll(usuarios, reqs).usuarios[k] == usuarios[k]
    decreases |reqs|
  {
    if reqs != [] {
      var step := RegisterStep(usuarios, reqs[0].nombre, reqs[0].apellido, reqs[0].email, reqs[0].rol, reqs[0].caller);
      RunKeepsRecords(step.usuarios, reqs[1..]);
    }
  }

  /** The registered ids after a run are the ones before it plus every caller. */
  lemma {:induction false} RunKeys(usuarios: map<AccountId, Usuario>, reqs: seq<Registration>)
    ensures RunAll(usuarios, reqs).usuarios.Keys == usuarios.Keys + set req | req in reqs :: req.caller
    decreases |reqs|
  {
    if reqs != [] {
      var step := RegisterStep(usuarios, reqs[0].nombre, reqs[0].apellido, reqs[0].email, reqs[0].rol, reqs[0].caller);
      RunKeys(step.usuarios, reqs[1..]);
      assert reqs == [reqs[0]] + reqs[1..];
      assert (set req | req in reqs :: req.caller)
          == {reqs[0].caller} + set req | req in reqs[1..] :: req.caller;
    }
  }

  /** A run keeps the invariant that every record is stored under its own id. */
  lemma {:induction false} RunKeepsKeysMatchIds(usuarios: map<AccountId, Usuario>, reqs: seq<Registration>)
    requires KeysMatchIds(usuarios)
    ensures KeysMatchIds(RunAll(usuarios, reqs).usuarios)
    decreases |reqs|
  {
    if reqs != [] {
      var step := RegisterStep(usuarios, reqs[0].nombre, reqs[0].apellido, reqs[0].email, reqs[0].rol, reqs[0].caller);
      RunKeepsKeysMatchIds(step.usuarios, reqs[1..]);
    }
  }

  /** Call `i` succeeds exactly when its caller was not registered before the
      run and made no earlier call in it; otherwise it fails with
      `UsuarioYaRegistrado`. */
  lemma {:induction false} RunResults(usuarios: map<AccountId, Usuario>, reqs: seq<Registration>)
    ensures forall i :: 0 <= i < |reqs| ==>
              (RunAll(usuarios, reqs).results[i].Ok? <==> reqs[i].caller !in usuarios && FirstCall(reqs, i))
    ensures forall i :: 0 <= i < |reqs| && RunAll(usuarios, reqs).results[i].Err? ==>
              RunAll(usuarios, reqs).results[i].error == UsuarioYaRegistrado
    decreases |reqs|
  {
    if reqs != [] {
      var step := RegisterStep(usuarios, reqs[0].nombre, reqs[0].apellido, reqs[0].email, reqs[0].rol, reqs[0].caller);
      var tail := reqs[1..];
      RunResults(step.usuarios, tail);
      var o := RunAll(usuarios, reqs);
      var rest := RunAll(step.usuarios, tail);
      forall i | 1 <= i < |reqs|
        ensures o.results[i].Ok? <==> reqs[i].caller !in usuarios && FirstCall(reqs, i)
      {
        assert o.results[i] == rest.results[i - 1];
        assert tail[i - 1] == reqs[i];
        if FirstCall(tail, i - 1) && reqs[i].caller != reqs[0].caller {
          forall j | 0 <= j < i ensures reqs[j].caller != reqs[i].caller {
            if j > 0 { assert reqs[j] == tail[j - 1]; }
          }
        }
        if FirstCall(reqs, i) {
          forall j | 0 <= j < i - 1 ensures tail[j].caller != tail[i - 1].caller {
            assert tail[j] == reqs[j + 1];
          }
        }
      }
    }
  }

  /** A successful call stores its own record, and it is the one found at the
      end of the run: the first registration of an id wins. */
  lemma {:induction false} FirstRegistrationWins(usuarios: map<AccountId, Usuario>, reqs: seq<Registration>)
    ensures forall i :: 0 <= i < |reqs| && RunAll(usuarios, reqs).results[i].Ok? ==>
              reqs[i].caller in RunAll(usuarios, reqs).usuarios
              && RunAll(usuarios, reqs).usuarios[reqs[i].caller] == Record(reqs[i])
    decreases |reqs|
  {
    if reqs != [] {
      var step := RegisterStep(usuarios, reqs[0].nombre, reqs[0].apellido, reqs[0].email, reqs[0].rol, reqs[0].caller);
      var tail := reqs[1..];
      FirstRegistrationWins(step.usuarios, tail);
      RunKeepsRecords(step.usuarios, tail);
      var o := RunAll(usuarios, reqs);
      var rest := RunAll(step.usuarios, tail);
      forall i | 1 <= i < |reqs| && o.results[i].Ok?
        ensures reqs[i].caller in o.usuarios && o.usuarios[reqs[i].caller] == Record(reqs[i])
      {
        assert o.results[i] == rest.results[i - 1];
        assert tail[i - 1] == reqs[i];
      }
    }
  }

  /** Two calls by the same caller never both succeed. */
  lemma {:induction false} AtMostOneSuccessPerCaller(usuarios: map<AccountId, Usuario>, reqs: seq<Registration>, i: int, j: int)
    requires 0 <= i < j < |reqs|
    requires reqs[i].caller == reqs[j].caller
    ensures !(RunAll(usuarios, reqs).results[i].Ok? && RunAll(usuarios, reqs).results[j].Ok?)
  {
    RunResults(usuarios, reqs);
  }

  /** Starting from the empty registry of `new`, every caller of a run ends
      up registered with the record of its first call. */
  lemma {:induction false} FromEmpty(reqs: seq<Registration>, i: int)
    requires 0 <= i < |reqs| && FirstCall(reqs, i)
    ensures RunAll(map[], reqs).results[i].Ok?
    ensures reqs[i].caller in RunAll(map[], reqs).usuarios
    ensures RunAll(map[], reqs).usuarios[reqs[i].caller] == Record(reqs[i])
  {
    var empty: map<AccountId, Usuario> := map[];
    RunResults(empty, reqs);
    assert RunAll(empty, reqs).results[i].Ok?;
    FirstRegistrationWins(empty, reqs);
  }
}
