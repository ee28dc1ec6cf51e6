/** The user registry of the `Sistema` contract: a table from account id to
    user record, written once per account and read back by id. */
module UsuariosSistema {

  /** An account id is a 32-byte public-key-derived address; the registry
      only compares ids for equality. */
  type AccountId = s: seq<bv8> | |s| == 32 witness seq(32, _ => 0 as bv8)

  /** The role a user registers with: buyer, seller or both. */
  datatype Rol = Comprador | Vendedor | Ambos

  /** The contract's two error cases. */
  datatype ErrorSistema = UsuarioYaRegistrado | UsuarioNoExiste

  /** A stored user: three opaque strings, the id it was registered under
      and its role. */
  datatype Usuario = Usuario(nombre: string, apellido: string, email: string, id: AccountId, rol: Rol)

  datatype Result<T> = Ok(value: T) | Err(error: ErrorSistema)

  /** What a registration answers and the registry it leaves behind. */
  datatype Outcome = Outcome(result: Result<()>, usuarios: map<AccountId, Usuario>)

  /** The registry invariant: every record is stored under its own id. */
  ghost predicate KeysMatchIds(usuarios: map<AccountId, Usuario>)
  {
    forall k :: k in usuarios ==> usuarios[k].id == k
  }

  /** Registering `id`: refused when `id` already has a record, otherwise a
      new record built from the arguments and `id` itself is stored. */
  function RegisterStep(usuarios: map<AccountId, Usuario>, nombre: string, apellido: string,
                        email: string, rol: Rol, id: AccountId): (o: Outcome)
    // succeeds exactly when the id is new
    ensures o.result.Ok? <==> id !in usuarios
    // a refusal says why and changes nothing
    ensures o.result.Err? ==> o.result.error == UsuarioYaRegistrado && o.usuarios == usuarios
    // a success stores the record built from the arguments under that id
    ensures o.result.Ok? ==> id in o.usuarios && o.usuarios[id] == Usuario(nombre, apellido, email, id, rol)
    // only the key `id` can be added, and no existing record is overwritten
    ensures o.usuarios.Keys == usuarios.Keys + {id}
    ensures forall k :: k in usuarios ==> o.usuarios[k] == usuarios[k]
    // the invariant is kept
    ensures KeysMatchIds(usuarios) ==> KeysMatchIds(o.usuarios)
  {
    if id in usuarios then
      Outcome(Err(UsuarioYaRegistrado), usuarios)
    else
      Outcome(Ok(()), usuarios[id := Usuario(nombre, apellido, email, id, rol)])
  }

  /** Looking up `id`: a copy of its record, or `UsuarioNoExiste`. */
  function Lookup(usuarios: map<AccountId, Usuario>, id: AccountId): (r: Result<Usuario>)
    ensures r.Ok? <==> id in usuarios
    ensures r.Ok? ==> r.value == usuarios[id]
    ensures r.Err? ==> r.error == UsuarioNoExiste
    ensures KeysMatchIds(usuarios) && r.Ok? ==> r.value.id == id
  {
    if id in usuarios then Ok(usuarios[id]) else Err(UsuarioNoExiste)
  }

  /** Round trip: after a successful registration the lookup of the same id
      returns exactly the record built from the registration's arguments. */
  lemma RegisterThenLookup(usuarios: map<AccountId, Usuario>, nombre: string, apellido: string,
                           email: string, rol: Rol, id: AccountId)
    requires id !in usuarios
    ensures Lookup(RegisterStep(usuarios, nombre, apellido, email, rol, id).usuarios, id)
            == Ok(Usuario(nombre, apellido, email, id, rol))
  {
  }

  /** The same id registered twice in a row: the first call succeeds, the
      second fails with `UsuarioYaRegistrado` and the first record stays,
      whatever the second call's arguments. */
  lemma RegisterTwice(usuarios: map<AccountId, Usuario>, id: AccountId,
                      nombre: string, apellido: string, email: string, rol: Rol,
                      nombre': string, apellido': string, email': string, rol': Rol)
    requires id !in usuarios
    ensures var first := RegisterStep(usuarios, nombre, apellido, email, rol, id);
            var second := RegisterStep(first.usuarios, nombre', apellido', email', rol', id);
            first.result == Ok(()) && second.result == Err(UsuarioYaRegistrado)
            && second.usuarios == first.usuarios
            && Lookup(second.usuarios, id) == Ok(Usuario(nombre, apellido, email, id, rol))
  {
  }

  /** The contract's storage, reduced to the user registry. */
  class Sistema {
    var usuarios: map<AccountId, Usuario>

    ghost predicate Valid()
      reads this
    {
      KeysMatchIds(usuarios)
    }

    /** `new`: the registry starts empty. */
    constructor ()
      ensures Valid()
      ensures usuarios == map[]
    {
      usuarios := map[];
    }

    /** `_registrar_usuario`: refuse an id that is already present, otherwise
        insert the record keyed by that same id. */
    method Register(nombre: string, apellido: string, email: string, rol: Rol, id: AccountId)
      returns (r: Result<()>)
      requires Valid()
      modifies this
      ensures Valid()
      ensures r == RegisterStep(old(usuarios), nombre, apellido, email, rol, id).result
      ensures usuarios == RegisterStep(old(usuarios), nombre, apellido, email, rol, id).usuarios
    {
      if id in usuarios {
        return Err(UsuarioYaRegistrado);
      }
      usuarios := usuarios[id := Usuario(nombre, apellido, email, id, rol)];
      r := Ok(());
    }

    /** `registrar_usuario`: registers the calling account; the caller, which
        the contract takes from its environment, is a parameter here. */
    method RegistrarUsuario(caller: AccountId, nombre: string, apellido: string, email: string, rol: Rol)
      returns (r: Result<()>)
      requires Valid()
      modifies this
      ensures Valid()
      ensures r == RegisterStep(old(usuarios), nombre, apellido, email, rol, caller).result
      ensures usuarios == RegisterStep(old(usuarios), nombre, apellido, email, rol, caller).usuarios
    {
      var inner := Register(nombre, apellido, email, rol, caller);
      if inner.Err? {
        return Err(inner.error);
      }
      r := Ok(());
    }

    /** `_get_user`: a read-only lookup by id. */
    method GetUser(id: AccountId) returns (r: Result<Usuario>)
      ensures r == Lookup(usuarios, id)
    {
      if id in usuarios {
        r := Ok(usuarios[id]);
      } else {
        r := Err(UsuarioNoExiste);
      }
    }
  }

  /** The unit test `registrar_usuario_okay`: a fresh registry accepts the
      caller. This method extends the test with a `GetUser` read-back of the
      caller's record. */
  method RegistrarUsuarioOkay(alice: AccountId) returns (registered: Result<()>, read: Result<Usuario>)
    ensures registered == Ok(())
    ensures read == Ok(Usuario("Alice", "Surname", "alice.email", alice, Comprador))
  {
    var sistema := new Sistema();
    registered := sistema.RegistrarUsuario(alice, "Alice", "Surname", "alice.email", Comprador);
    read := sistema.GetUser(alice);
  }

  /** The unit test `registrar_usuario_not_okay`: the same caller registering
      twice is accepted once and then refused. */
  method RegistrarUsuarioNotOkay(alice: AccountId) returns (first: Result<()>, second: Result<()>)
    ensures first == Ok(())
    ensures second == Err(UsuarioYaRegistrado)
  {
    var sistema := new Sistema();
    first := sistema.RegistrarUsuario(alice, "Alice", "Surname", "alice.email", Comprador);
    second := sistema.RegistrarUsuario(alice, "Alice", "Surname", "alice.email", Comprador);
  }
}
