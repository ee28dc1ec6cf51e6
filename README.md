# Sistema user registry, modelled in Dafny

The ink! smart contract `Sistema` (`usuarios-sistema/lib.rs`) keeps a registry
`usuarios` from `AccountId` to a `Usuario` record. A record holds a name, a
surname and an email (opaque strings), the account id and a role (`Comprador`,
`Vendedor` or `Ambos`). The contract's constructor `new` starts the registry
empty. `registrar_usuario` registers the calling account through
`_registrar_usuario`. That function refuses an id that is already present with
`UsuarioYaRegistrado`. Otherwise it inserts the record keyed by the same id.
`_get_user` returns a copy of a stored record, or `UsuarioNoExiste`.
A comment above `_registrar_usuario` (lib.rs:96) wonders whether it always
reports the user as already registered. The code does not: it fails only when
the id already has a record (lib.rs:100-102), and the model proves that a new
id is accepted (`RegisterStep`, `RegistrarUsuarioOkay`, `FromEmpty`).

The model has two modules:

- `UsuariosSistema` (`usuarios_sistema.dfy`) holds the types and two pure
  specification functions over the map, `RegisterStep` and `Lookup`. It also
  holds the class `Sistema`, whose `usuarios: map<AccountId, Usuario>` field
  is updated in place by `Register`. The class is proved against those
  functions. The two unit tests of the source are client methods here.
- `RegistryTraces` (`registry_traces.dfy`) runs any sequence of registration
  calls. It proves four things by induction: the "record stored under its own
  id" invariant is kept, no record is ever overwritten or removed, a call
  succeeds exactly when it is its caller's first, and the first registration
  of an id is the one that stays.

The caller identity, which the contract reads from its environment
(`self.env().caller()`), is an explicit `caller` parameter. `AccountId` is a
sequence of 32 bytes that is only compared for equality.

`lib.rs` has no code that changes a role after registration: the only
role-changing code there (`modificar_rol`) is commented out, so the model has
none.

## Model

| member | source | states |
|---|---|---|
| `UsuariosSistema.RegisterStep` | usuarios-sistema/lib.rs:97-106 | registration succeeds iff the id is absent; a refusal is `UsuarioYaRegistrado` and leaves the map unchanged; a success stores `Usuario{nombre, apellido, email, id, rol}` under `id`; only key `id` can be added and no existing record is overwritten; the keys-match-ids invariant is kept |
| `UsuariosSistema.Lookup` | usuarios-sistema/lib.rs:127-134 | lookup is `Ok` iff the id is present, then with exactly the stored record (whose `id` is the key under the invariant); otherwise `UsuarioNoExiste` |
| `UsuariosSistema.RegisterThenLookup` | usuarios-sistema/lib.rs:97-134 | round trip: after registering a new id, looking it up returns exactly the record built from the registration's arguments |
| `UsuariosSistema.RegisterTwice` | usuarios-sistema/lib.rs:97-106 | the same id registered twice: first `Ok`, second `UsuarioYaRegistrado` with the map unchanged, and the first record stays whatever the second call's arguments |
| `UsuariosSistema.Sistema.constructor` | usuarios-sistema/lib.rs:61-63 | `new` yields an empty registry, which satisfies the invariant |
| `UsuariosSistema.Sistema.Register` | usuarios-sistema/lib.rs:97-106 | `_registrar_usuario` answers and leaves the registry exactly as `RegisterStep` of the old registry says, and keeps the invariant |
| `UsuariosSistema.Sistema.RegistrarUsuario` | usuarios-sistema/lib.rs:88-93 | `registrar_usuario` registers the caller's own id, with the same answer and new state as `_registrar_usuario` on that id |
| `UsuariosSistema.Sistema.GetUser` | usuarios-sistema/lib.rs:127-134 | `_get_user` changes nothing and returns what `Lookup` of the current registry gives |
| `UsuariosSistema.RegistrarUsuarioOkay` | usuarios-sistema/lib.rs:163-171 | on a fresh registry a caller's registration succeeds, and its record reads back exactly |
| `UsuariosSistema.RegistrarUsuarioNotOkay` | usuarios-sistema/lib.rs:174-183 | on a fresh registry the same caller registering twice gets `Ok` then `UsuarioYaRegistrado` |
| `RegistryTraces.RunAll` | usuarios-sistema/lib.rs:88-106 | running a sequence of registrations gives one answer per call |
| `RegistryTraces.RunKeepsRecords` | usuarios-sistema/lib.rs:100-102 | every record present before a run is still present and unchanged after it |
| `RegistryTraces.RunKeys` | usuarios-sistema/lib.rs:100-104 | the ids registered after a run are those before it plus all the run's callers |
| `RegistryTraces.RunKeepsKeysMatchIds` | usuarios-sistema/lib.rs:100-104 | every run keeps the invariant that each record's `id` equals its key |
| `RegistryTraces.RunResults` | usuarios-sistema/lib.rs:100-105 | call `i` succeeds iff its caller was absent before the run and made no earlier call in it; every failure is `UsuarioYaRegistrado` |
| `RegistryTraces.FirstRegistrationWins` | usuarios-sistema/lib.rs:100-104 | the record of every successful call is the one stored for its caller at the end of the run |
| `RegistryTraces.AtMostOneSuccessPerCaller` | usuarios-sistema/lib.rs:100-102 | two calls by the same caller never both succeed |
| `RegistryTraces.FromEmpty` | usuarios-sistema/lib.rs:61-106 | starting from `new`'s empty registry, each caller's first call succeeds and its record is the one that stays |

## Left out

- The `value: bool` field, the `flip` and `get` messages and the `default` constructor (lib.rs:14, 65-85, 146-159): they do not touch the registry. For the same reason `new` takes no `init_value`.
- `self.env().caller()`: the caller comes from the execution environment, so it is a parameter of `RegistrarUsuario`.
- The ink! attributes, the SCALE `Encode`/`Decode`/`TypeInfo` derives, `StorageLayout` and the storage encoding of `Mapping`: these are framework and serialisation plumbing. `Mapping` is a Dafny `map`.
- The commented-out `modificar_rol`, `_modificar_rol`, `get_user` and `test_new` (lib.rs:108-125, 186-190): they are not compiled code.
- The async end-to-end tests (lib.rs:200-264): they need a running node.
- Name and email validation: the source stores the strings as given, with no checks, and so does the model.
