/** A client of the three controllers: one user's life from registration to
    purge, with each answer derived from the handlers' contracts alone. */
module Walkthrough {
  import opened Documents
  import opened Credentials
  import opened Accounts
  import opened Persistence
  import opened Auth
  import opened UserHandlers

  /** The database holds exactly one user, "ana", whose password is "pw1". */
  ghost predicate OnlyAna(db: Database, id: Id)
    reads db
  {
    db.Valid() && db.usuarios.docs.Keys == {id}
    && db.usuarios.docs[id].body.nombre == "ana" && db.usuarios.docs[id].body.clave == Hash("pw1", 7)
  }

  method AccountLifecycle(now: nat)
  {
    var db := new Database();
    var auth := new AuthController(db);
    var users := new UserController(db);
    var id := RegisterAna(auth, now);
    LogInTwice(auth, id);
    SoftDeleteAndRestore(auth, users, id, now);
    PurgeAndLogIn(auth, users, id);
  }

  /** Registration stores the account logged out. */
  method RegisterAna(auth: AuthController, now: nat) returns (id: Id)
    requires auth.Valid() && auth.db.usuarios.docs == map[]
    modifies auth, auth.db`usuarios
    ensures OnlyAna(auth.db, id)
  {
    var res := auth.CreateUser("ana", "pw1", None, Some("ana.png"), 7, now, false);
    assert res.code == 200;
    id := res.body.envelope.data.id;
    assert auth.db.usuarios.docs.Keys == {id} && !auth.db.usuarios.docs[id].body.isLogged;
  }

  /** The right password logs in; a wrong one is refused with 401. */
  method LogInTwice(auth: AuthController, id: Id)
    requires OnlyAna(auth.db, id)
    modifies auth, auth.db`usuarios
    ensures OnlyAna(auth.db, id)
  {
    FindByNombreUnique(auth.db.usuarios, id);
    var res := auth.LoginUser("ana", "pw1", false);
    assert res.code == 200 && res.body.usuario.body.isLogged;
    assert OnlyAna(auth.db, id);

    FindByNombreUnique(auth.db.usuarios, id);
    res := auth.LoginUser("ana", "wrong", false);
    assert res.code == 401;
  }

  /** A soft-deleted name still blocks registration; restore clears the stamp. */
  method SoftDeleteAndRestore(auth: AuthController, users: UserController, id: Id, now: nat)
    requires users.db == auth.db && OnlyAna(auth.db, id)
    modifies auth, users, auth.db`usuarios
    ensures OnlyAna(auth.db, id)
  {
    var res := users.DeleteUser(id, now + 1, false);
    assert res.code == 200 && auth.db.usuarios.docs[id].deleted_at == Some(now + 1);

    res := auth.CreateUser("ana", "other", None, Some("b.png"), 8, now + 2, false);
    assert res.code == 404;

    res := users.RestoreUser(id, false);
    assert res.code == 200 && auth.db.usuarios.docs[id].deleted_at == None;
  }

  /** After a purge the name is unknown and the id is not found. */
  method PurgeAndLogIn(auth: AuthController, users: UserController, id: Id)
    requires users.db == auth.db && OnlyAna(auth.db, id)
    modifies auth, users, auth.db`usuarios
  {
    var res := users.DeleteUserForever(id, false);
    assert res.code == 200;

    res := auth.LoginUser("ana", "pw1", false);
    assert res.code == 404;

    res := users.RestoreUser(id, false);
    assert res.code == 404;
  }
}
