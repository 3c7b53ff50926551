/** Registration and login (controllers/auth.controller.js) as functions of the
    user collection, and what holds over any run of the user handlers. */
module Accounts {
  import opened Documents
  import opened Credentials
  import opened Models
  import opened Lifecycle

  /** Some stored user, soft-deleted or not, has this `nombre`. */
  ghost predicate NameTaken(c: Collection<Usuario>, nombre: string)
  {
    exists id :: id in c.docs && c.docs[id].body.nombre == nombre
  }

  /** No two stored users share a `nombre`. */
  ghost predicate UniqueNames(c: Collection<Usuario>)
  {
    forall i, j :: i in c.docs && j in c.docs && c.docs[i].body.nombre == c.docs[j].body.nombre ==> i == j
  }

  /** Usuario.findOne({ nombre }): the lookup does not look at `deleted_at`. */
  function FindByNombre(c: Collection<Usuario>, nombre: string): (r: Option<Entry<Usuario>>)
    requires WellFormed(c)
    ensures r.None? <==> !NameTaken(c, nombre)
    ensures r.Some? ==> r.value.id in c.docs && c.docs[r.value.id] == r.value.doc
    ensures r.Some? ==> r.value.doc.body.nombre == nombre
  {
    FindOne(c, (u: Usuario) => u.nombre == nombre)
  }

  /** When only one stored user has a name, the lookup finds that user. */
  lemma FindByNombreSole(c: Collection<Usuario>, id: Id)
    requires WellFormed(c) && id in c.docs
    requires forall k :: k in c.docs && c.docs[k].body.nombre == c.docs[id].body.nombre ==> k == id
    ensures FindByNombre(c, c.docs[id].body.nombre) == Some(Entry(id, c.docs[id]))
  {
    var r := FindByNombre(c, c.docs[id].body.nombre);
    assert NameTaken(c, c.docs[id].body.nombre);
    assert r.value.id == id;
  }

  /** With unique names the lookup finds the one user of that name. */
  lemma FindByNombreUnique(c: Collection<Usuario>, id: Id)
    requires WellFormed(c) && UniqueNames(c) && id in c.docs
    ensures FindByNombre(c, c.docs[id].body.nombre) == Some(Entry(id, c.docs[id]))
  {
    FindByNombreSole(c, id);
  }

  datatype Registration =
    | Duplicate
    | MissingUpload
    | Registered(id: Id, after: Collection<Usuario>)

  /** createUser: a `nombre` already stored (in any deletion state) is refused;
      otherwise the password is hashed, and without an uploaded image the
      handler fails before saving; otherwise the new user is saved. */
  function Register(c: Collection<Usuario>, nombre: string, clave: string, descripcion: Field,
                    file: Option<string>, salt: nat, now: nat): (r: Registration)
    requires WellFormed(c)
    ensures r.Duplicate? <==> NameTaken(c, nombre)
    ensures r.MissingUpload? <==> !NameTaken(c, nombre) && file.None?
    ensures r.Registered? ==> r.id == c.nextId && r.id !in c.docs && WellFormed(r.after)
    ensures r.Registered? ==> r.after.docs.Keys == c.docs.Keys + {r.id} && |r.after.docs| == |c.docs| + 1
    ensures r.Registered? ==> forall id :: id in c.docs ==> r.after.docs[id] == c.docs[id]
    ensures r.Registered? ==>
      var u := r.after.docs[r.id];
      && u.body.nombre == nombre && u.body.clave == Hash(clave, salt) && Verify(clave, u.body.clave)
      && u.body.imagen == file.value && u.body.descripcion == descripcion
      && !u.body.isAdmin && !u.body.isLogged
      && u.deleted_at == None && u.created_at == now && u.updated_at == now
  {
    if FindByNombre(c, nombre).Some? then Duplicate
    else if file.None? then MissingUpload
    else Registered(c.nextId, Insert(c, NewUsuario(nombre, Hash(clave, salt), file.value, descripcion), now))
  }

  /** Registration keeps names unique. */
  lemma RegisterKeepsNamesUnique(c: Collection<Usuario>, nombre: string, clave: string, descripcion: Field,
                                 file: Option<string>, salt: nat, now: nat)
    requires WellFormed(c) && UniqueNames(c)
    ensures var r := Register(c, nombre, clave, descripcion, file, salt, now);
            r.Registered? ==> UniqueNames(r.after)
  {
    var r := Register(c, nombre, clave, descripcion, file, salt, now);
    if r.Registered? {
      var a, id := r.after.docs, r.id;
      assert !NameTaken(c, nombre);
      assert a[id].body.nombre == nombre;
      forall i, j | i in a && j in a && a[i].body.nombre == a[j].body.nombre
        ensures i == j
      {
        if i != id && j != id {
          assert a[i] == c.docs[i] && a[j] == c.docs[j];
        } else if i != j {
          assert false;  // the other one would be a stored user named `nombre`
        }
      }
    }
  }

  datatype LoginResult =
    | UnknownUser
    | WrongPassword(id: Id)
    | LoggedIn(id: Id, after: Collection<Usuario>)

  /** loginUser: the user found by name must verify the password; then its
      `isLogged` becomes true and it is saved. `deleted_at` is not consulted. */
  function Login(c: Collection<Usuario>, nombre: string, clave: string): (r: LoginResult)
    requires WellFormed(c)
    ensures r.UnknownUser? <==> !NameTaken(c, nombre)
    ensures !r.UnknownUser? ==> r.id in c.docs && c.docs[r.id].body.nombre == nombre
    ensures r.WrongPassword? ==> !Verify(clave, c.docs[r.id].body.clave)
    ensures r.LoggedIn? ==> Verify(clave, c.docs[r.id].body.clave)
    ensures r.LoggedIn? ==> r.after == Replace(c, r.id, c.docs[r.id].body.(isLogged := true))
  {
    var found := FindByNombre(c, nombre);
    if found.None? then UnknownUser
    else if Verify(clave, found.value.doc.body.clave) then
      LoggedIn(found.value.id, Replace(c, found.value.id, found.value.doc.body.(isLogged := true)))
    else WrongPassword(found.value.id)
  }

  /** Registering and then logging in with the same name and password
      succeeds, and the stored user is then logged in. */
  lemma RegisterThenLogin(c: Collection<Usuario>, nombre: string, clave: string, descripcion: Field,
                          file: Option<string>, salt: nat, now: nat)
    requires WellFormed(c)
    requires Register(c, nombre, clave, descripcion, file, salt, now).Registered?
    ensures var r := Register(c, nombre, clave, descripcion, file, salt, now);
            var l := Login(r.after, nombre, clave);
            l.LoggedIn? && l.id == r.id && l.after.docs[l.id].body.isLogged
  {
    var r := Register(c, nombre, clave, descripcion, file, salt, now);
    var a := r.after.docs;
    assert !NameTaken(c, nombre);
    forall k | k in a && a[k].body.nombre == a[r.id].body.nombre
      ensures k == r.id
    {
      if k != r.id {
        assert false;
      }
    }
    FindByNombreSole(r.after, r.id);
  }

  /** A soft-deleted user can still log in: login ignores `deleted_at`. */
  lemma SoftDeletedUserCanLogIn(c: Collection<Usuario>, id: Id, now: nat, clave: string)
    requires WellFormed(c) && UniqueNames(c) && id in c.docs
    requires Verify(clave, c.docs[id].body.clave)
    ensures var l := Login(SoftDelete(c, id, now), c.docs[id].body.nombre, clave);
            l.LoggedIn? && l.id == id
  {
    var d := SoftDelete(c, id, now);
    assert UniqueNames(d) by {
      forall i, j | i in d.docs && j in d.docs && d.docs[i].body.nombre == d.docs[j].body.nombre
        ensures i == j
      {
        assert c.docs[i].body.nombre == c.docs[j].body.nombre;
      }
    }
    FindByNombreUnique(d, id);
  }

  /** A failed login changes nothing and reports the user it found. */
  lemma WrongPasswordChangesNothing(c: Collection<Usuario>, id: Id, clave: string)
    requires WellFormed(c) && UniqueNames(c) && id in c.docs
    requires !Verify(clave, c.docs[id].body.clave)
    ensures Login(c, c.docs[id].body.nombre, clave) == WrongPassword(id)
  {
    FindByNombreUnique(c, id);
  }

  /** Every way the user handlers change the user collection. */
  datatype UserOp =
    | SignUp(nombre: string, clave: string, descripcion: Field, file: Option<string>, salt: nat, now: nat)
    | LogIn(nombre: string, clave: string)
    | SoftDeleteUser(id: Id, now: nat)
    | UndeleteUser(id: Id)
    | PurgeUser(id: Id)

  function UserStep(c: Collection<Usuario>, op: UserOp): (r: Collection<Usuario>)
    requires WellFormed(c)
    ensures WellFormed(r) && c.nextId <= r.nextId
    ensures forall id :: id in r.docs && id < c.nextId ==> id in c.docs
    ensures forall id :: id in r.docs && id in c.docs ==> r.docs[id].body.nombre == c.docs[id].body.nombre
  {
    match op
    case SignUp(nombre, clave, descripcion, file, salt, now) =>
      var reg := Register(c, nombre, clave, descripcion, file, salt, now);
      if reg.Registered? then
        assert forall id :: id in c.docs ==> reg.after.docs[id] == c.docs[id];
        reg.after
      else c
    case LogIn(nombre, clave) =>
      var l := Login(c, nombre, clave);
      if l.LoggedIn? then l.after else c
    case SoftDeleteUser(id, now) => SoftDelete(c, id, now)
    case UndeleteUser(id) => Restore(c, id)
    case PurgeUser(id) => Purge(c, id)
  }

  function RunUsers(c: Collection<Usuario>, ops: seq<UserOp>): (r: Collection<Usuario>)
    requires WellFormed(c)
    ensures WellFormed(r)
    decreases |ops|
  {
    if ops == [] then c else RunUsers(UserStep(c, ops[0]), ops[1..])
  }

  lemma UserStepKeepsNamesUnique(c: Collection<Usuario>, op: UserOp)
    requires WellFormed(c) && UniqueNames(c)
    ensures UniqueNames(UserStep(c, op))
  {
    var r := UserStep(c, op);
    if op.SignUp? {
      RegisterKeepsNamesUnique(c, op.nombre, op.clave, op.descripcion, op.file, op.salt, op.now);
    } else {
      forall i, j | i in r.docs && j in r.docs && r.docs[i].body.nombre == r.docs[j].body.nombre
        ensures i == j
      {
        assert i in c.docs && j in c.docs;
      }
    }
  }

  /** Whatever the user handlers do, in any order, no two users ever share a
      `nombre`. */
  lemma {:induction false} NamesStayUnique(c: Collection<Usuario>, ops: seq<UserOp>)
    requires WellFormed(c) && UniqueNames(c)
    ensures UniqueNames(RunUsers(c, ops))
    decreases |ops|
  {
    if ops != [] {
      UserStepKeepsNamesUnique(c, ops[0]);
      NamesStayUnique(UserStep(c, ops[0]), ops[1..]);
    }
  }

  lemma UserStepKeepsLoggedIn(c: Collection<Usuario>, op: UserOp, id: Id)
    requires WellFormed(c) && id in c.docs && c.docs[id].body.isLogged
    ensures var r := UserStep(c, op);
            id in r.docs ==> r.docs[id].body.isLogged
  {
    var r := UserStep(c, op);
    if id in r.docs {
      match op
      case SignUp(nombre, clave, descripcion, file, salt, now) =>
        assert r.docs[id] == c.docs[id];
      case LogIn(nombre, clave) =>
        var l := Login(c, nombre, clave);
        if l.LoggedIn? && l.id != id {
          assert r.docs[id] == c.docs[id];
        }
      case SoftDeleteUser(k, now) =>
        assert r.docs[id].body == c.docs[id].body;
      case UndeleteUser(k) =>
        assert r.docs[id].body == c.docs[id].body;
      case PurgeUser(k) =>
        assert r.docs[id] == c.docs[id];
    }
  }

  /** No handler ever sets `isLogged` back to false: once a user is logged in
      it stays logged in for as long as it is stored. */
  lemma {:induction false} LoggedInStaysLoggedIn(c: Collection<Usuario>, id: Id, ops: seq<UserOp>)
    requires WellFormed(c) && id < c.nextId
    requires id in c.docs ==> c.docs[id].body.isLogged
    ensures var r := RunUsers(c, ops);
            id in r.docs ==> r.docs[id].body.isLogged
    decreases |ops|
  {
    if ops != [] {
      if id in c.docs {
        UserStepKeepsLoggedIn(c, ops[0], id);
      }
      LoggedInStaysLoggedIn(UserStep(c, ops[0]), id, ops[1..]);
    }
  }

  /** A user removed for good (or never stored under an identifier already
      handed out) stays absent whatever user handlers follow: deleteUser,
      restoreUser and deleteUserForever on that id all answer 404 from then on. */
  lemma {:induction false} PurgedUserStaysGone(c: Collection<Usuario>, id: Id, ops: seq<UserOp>)
    requires WellFormed(c) && id < c.nextId && id !in c.docs
    ensures id !in RunUsers(c, ops).docs
    decreases |ops|
  {
    if ops != [] {
      PurgedUserStaysGone(UserStep(c, ops[0]), id, ops[1..]);
    }
  }

  /** After deleteUserForever, the purged user is never found again. */
  lemma PurgeUserIsTerminal(c: Collection<Usuario>, id: Id, ops: seq<UserOp>)
    requires WellFormed(c) && id in c.docs
    ensures FindById(RunUsers(UserStep(c, PurgeUser(id)), ops), id) == None
  {
    PurgedUserStaysGone(UserStep(c, PurgeUser(id)), id, ops);
  }
}
