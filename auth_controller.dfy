/** controllers/auth.controller.js: registration and login. */
module Auth {
  import opened Documents
  import opened Credentials
  import opened Models
  import opened Accounts
  import opened Responses
  import opened Persistence

  const MsgUnknownUser := "¡Error, inténtalo de nuevo!"
  const MsgLoginFailed := "Inicio de sesión incorrecto"
  const MsgLoggedIn := "Inicio de sesión correcto"
  const MsgDuplicate := "prueba con otras credenciales"
  const MsgCreated := "Usuario creado con éxito"
  const MsgCreateError := "Error al crear usuario"

  /** The handlers and this module's `responseAPI`; `storeFails` as in the
      dessert controller. */
  class AuthController {
    const db: Database
    var responseAPI: Envelope

    ghost predicate Valid()
      reads this, db
    {
      db.Valid()
    }

    constructor (db: Database)
      requires db.Valid()
      ensures Valid() && this.db == db && responseAPI == Initial()
    {
      this.db := db;
      responseAPI := Initial();
    }

    /** loginUser: finds the user by name, checks the password against the
        stored digest, sets `isLogged` and answers with the user without its
        digest. A soft-deleted user is found like any other. */
    method LoginUser(nombre: string, clave: string, storeFails: bool) returns (res: Response)
      requires Valid()
      modifies this, db`usuarios
      ensures Valid() && db.postres == old(db.postres)
      ensures storeFails ==>
        && db.usuarios == old(db.usuarios)
        && responseAPI == Fail(old(responseAPI), MsgLoginFailed)
        && res == Response(500, Sent(responseAPI))
      ensures !storeFails ==>
        var l := Login(old(db.usuarios), nombre, clave);
        && (l.UnknownUser? ==>
              && db.usuarios == old(db.usuarios) && responseAPI == old(responseAPI)
              && res == Response(404, ErrorJson(MsgUnknownUser)))
        && (l.WrongPassword? ==>
              && db.usuarios == old(db.usuarios) && responseAPI == old(responseAPI)
              && res == Response(401, ErrorJson(MsgLoginFailed)))
        && (l.LoggedIn? ==>
              && db.usuarios == l.after
              && responseAPI == old(responseAPI).(msg := MsgLoggedIn)
              && res == Response(200, LoggedInUser(l.id, Public(db.usuarios.docs[l.id]))))
    {
      if storeFails {
        responseAPI := responseAPI.(msg := MsgLoginFailed);
        responseAPI := responseAPI.(status := StatusError);
        res := Response(500, Sent(responseAPI));
        return;
      }
      var usuario := FindByNombre(db.usuarios, nombre);
      if usuario.None? {
        res := Response(404, ErrorJson(MsgUnknownUser));
        return;
      }
      var id := usuario.value.id;
      if Verify(clave, usuario.value.doc.body.clave) {
        ghost var before := db.usuarios;
        db.usuarios := Replace(db.usuarios, id, usuario.value.doc.body.(isLogged := true));
        assert UniqueNames(db.usuarios) by {
          forall i, j | i in db.usuarios.docs && j in db.usuarios.docs && db.usuarios.docs[i].body.nombre == db.usuarios.docs[j].body.nombre
            ensures i == j
          {
            assert before.docs[i].body.nombre == before.docs[j].body.nombre;
          }
        }
        res := Response(200, LoggedInUser(id, Public(db.usuarios.docs[id])));
        responseAPI := responseAPI.(msg := MsgLoggedIn);
      } else {
        res := Response(401, ErrorJson(MsgLoginFailed));
      }
    }

    /** createUser: refuses a name already stored, hashes the password and
        saves a user that is neither administrator nor logged in; without an
        uploaded image it fails before saving. Answers without the digest and
        resets `status` to "ok". */
    method CreateUser(nombre: string, clave: string, descripcion: Field, file: Option<string>,
                      salt: nat, now: nat, storeFails: bool) returns (res: Response)
      requires Valid()
      modifies this, db`usuarios
      ensures Valid() && db.postres == old(db.postres)
      ensures storeFails ==>
        && db.usuarios == old(db.usuarios)
        && responseAPI == Fail(old(responseAPI), MsgCreateError)
        && res == Response(500, Sent(responseAPI))
      ensures !storeFails ==>
        var r := Register(old(db.usuarios), nombre, clave, descripcion, file, salt, now);
        && (r.Duplicate? ==>
              && db.usuarios == old(db.usuarios) && responseAPI == old(responseAPI)
              && res == Response(404, ErrorJson(MsgDuplicate)))
        && (r.MissingUpload? ==>
              && db.usuarios == old(db.usuarios)
              && responseAPI == Fail(old(responseAPI), MsgCreateError)
              && res == Response(500, Sent(responseAPI)))
        && (r.Registered? ==>
              && db.usuarios == r.after
              && responseAPI == Envelope(Account(r.id, Public(db.usuarios.docs[r.id])), MsgCreated, StatusOk)
              && res == Response(200, Sent(responseAPI)))
    {
      if storeFails {
        responseAPI := responseAPI.(msg := MsgCreateError);
        responseAPI := responseAPI.(status := StatusError);
        res := Response(500, Sent(responseAPI));
        return;
      }
      var existingUser := FindByNombre(db.usuarios, nombre);
      if existingUser.Some? {
        res := Response(404, ErrorJson(MsgDuplicate));
        return;
      }
      var claveEncriptada := Hash(clave, salt);
      if file.None? {
        responseAPI := responseAPI.(msg := MsgCreateError);
        responseAPI := responseAPI.(status := StatusError);
        res := Response(500, Sent(responseAPI));
        return;
      }
      var nuevoUsuario := NewUsuario(nombre, claveEncriptada, file.value, descripcion);
      var id := db.usuarios.nextId;
      RegisterKeepsNamesUnique(db.usuarios, nombre, clave, descripcion, file, salt, now);
      assert Register(db.usuarios, nombre, clave, descripcion, file, salt, now)
          == Registered(id, Insert(db.usuarios, nuevoUsuario, now));
      db.usuarios := Insert(db.usuarios, nuevoUsuario, now);
      responseAPI := responseAPI.(data := Account(id, Public(db.usuarios.docs[id])));
      responseAPI := responseAPI.(msg := MsgCreated);
      responseAPI := responseAPI.(status := StatusOk);
      res := Response(200, Sent(responseAPI));
    }
  }
}
