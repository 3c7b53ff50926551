/** controllers/user.controller.js: listing users and their soft delete,
    restore and purge. None of these handlers touches the desserts, not even
    those whose owner is purged. */
module UserHandlers {
  import opened Documents
  import opened Lifecycle
  import opened Accounts
  import opened Responses
  import opened Persistence

  const MsgListed := "Obtener usuarios"
  const MsgListError := "Error al obtener usuarios"
  const MsgSoftDeleted := "Usuario eliminado de manera temporal exitosamente"
  const MsgSoftDeleteNotFound := "No se encontró el usuario para eliminar"
  const MsgSoftDeleteError := "Error al eliminar de manera temporal el usuario"
  const MsgRestored := "Usuario restaurado exitosamente"
  const MsgRestoreNotFound := "No se encontró el usuario para restaurar"
  const MsgRestoreError := "Error al restaurar el usuario"
  const MsgPurged := "Usuario eliminado exitosamente"
  const MsgPurgeNotFound := "No se encontró el usuario para eliminar para siempre"
  const MsgPurgeError := "Error al eliminar el usuario"

  /** The handlers and this module's `responseAPI`; `storeFails` as in the
      dessert controller. The user documents these handlers answer with are
      the stored ones, password digest included. */
  class UserController {
    const db: Database
    var responseAPI: Envelope

    ghost predicate Valid()
      reads this, db
    {
      db.Valid()
    }

    constructor (db: Database)
      requires db.Valid()
      ensures Valid() && this.db == db && responseAPI == Initial()
    {
      this.db := db;
      responseAPI := Initial();
    }

    /** getAllUsers: every user, soft-deleted ones included. */
    method GetAllUsers(storeFails: bool) returns (res: Response)
      requires Valid()
      modifies this
      ensures Valid()
      ensures storeFails ==> responseAPI == Fail(old(responseAPI), MsgListError) && res == Response(500, Sent(responseAPI))
      ensures !storeFails ==>
        && responseAPI == Succeed(old(responseAPI), Users(FindAll(db.usuarios)), MsgListed)
        && res == Response(200, Sent(responseAPI))
    {
      if storeFails {
        responseAPI := responseAPI.(msg := MsgListError);
        responseAPI := responseAPI.(status := StatusError);
        res := Response(500, Sent(responseAPI));
        return;
      }
      var usuarios := FindAll(db.usuarios);
      responseAPI := responseAPI.(data := Users(usuarios));
      responseAPI := responseAPI.(msg := MsgListed);
      res := Response(200, Sent(responseAPI));
    }

    /** deleteUser: stamps `deleted_at` with the clock. */
    method DeleteUser(id: Id, now: nat, storeFails: bool) returns (res: Response)
      requires Valid()
      modifies this, db`usuarios
      ensures Valid() && db.postres == old(db.postres)
      ensures storeFails ==>
        && db.usuarios == old(db.usuarios)
        && responseAPI == Fail(old(responseAPI), MsgSoftDeleteError)
        && res == Response(500, Sent(responseAPI))
      ensures !storeFails && id !in old(db.usuarios.docs) ==>
        && db.usuarios == old(db.usuarios) && responseAPI == old(responseAPI)
        && res == Response(404, ErrorJson(MsgSoftDeleteNotFound))
      ensures !storeFails && id in old(db.usuarios.docs) ==>
        && db.usuarios == SoftDelete(old(db.usuarios), id, now)
        && responseAPI == Succeed(old(responseAPI), User(Entry(id, db.usuarios.docs[id])), MsgSoftDeleted)
        && res == Response(200, Sent(responseAPI))
    {
      if storeFails {
        responseAPI := responseAPI.(msg := MsgSoftDeleteError);
        responseAPI := responseAPI.(status := StatusError);
        res := Response(500, Sent(responseAPI));
        return;
      }
      ghost var before := db.usuarios;
      db.usuarios := SoftDelete(db.usuarios, id, now);
      assert UniqueNames(db.usuarios) by {
        forall i, j | i in db.usuarios.docs && j in db.usuarios.docs && db.usuarios.docs[i].body.nombre == db.usuarios.docs[j].body.nombre
          ensures i == j
        {
          assert before.docs[i].body.nombre == before.docs[j].body.nombre;
        }
      }
      var deleteUser := FindById(db.usuarios, id);
      if deleteUser.None? {
        res := Response(404, ErrorJson(MsgSoftDeleteNotFound));
        return;
      }
      responseAPI := responseAPI.(data := User(Entry(id, deleteUser.value)));
      responseAPI := responseAPI.(msg := MsgSoftDeleted);
      res := Response(200, Sent(responseAPI));
    }

    /** restoreUser: clears `deleted_at`, whatever it held. */
    method RestoreUser(id: Id, storeFails: bool) returns (res: Response)
      requires Valid()
      modifies this, db`usuarios
      ensures Valid() && db.postres == old(db.postres)
      ensures storeFails ==>
        && db.usuarios == old(db.usuarios)
        && responseAPI == Fail(old(responseAPI), MsgRestoreError)
        && res == Response(500, Sent(responseAPI))
      ensures !storeFails && id !in old(db.usuarios.docs) ==>
        && db.usuarios == old(db.usuarios) && responseAPI == old(responseAPI)
        && res == Response(404, ErrorJson(MsgRestoreNotFound))
      ensures !storeFails && id in old(db.usuarios.docs) ==>
        && db.usuarios == Restore(old(db.usuarios), id)
        && responseAPI == Succeed(old(responseAPI), User(Entry(id, db.usuarios.docs[id])), MsgRestored)
        && res == Response(200, Sent(responseAPI))
    {
      if storeFails {
        responseAPI := responseAPI.(msg := MsgRestoreError);
        responseAPI := responseAPI.(status := StatusError);
        res := Response(500, Sent(responseAPI));
        return;
      }
      ghost var before := db.usuarios;
      db.usuarios := Restore(db.usuarios, id);
      assert UniqueNames(db.usuarios) by {
        forall i, j | i in db.usuarios.docs && j in db.usuarios.docs && db.usuarios.docs[i].body.nombre == db.usuarios.docs[j].body.nombre
          ensures i == j
        {
          assert before.docs[i].body.nombre == before.docs[j].body.nombre;
        }
      }
      var restoredUser := FindById(db.usuarios, id);
      if restoredUser.None? {
        res := Response(404, ErrorJson(MsgRestoreNotFound));
        return;
      }
      responseAPI := responseAPI.(data := User(Entry(id, restoredUser.value)));
      responseAPI := responseAPI.(msg := MsgRestored);
      res := Response(200, Sent(responseAPI));
    }

    /** deleteUserForever: removes the user and answers with it. Desserts
        that name it as owner keep the dangling reference. */
    method DeleteUserForever(id: Id, storeFails: bool) returns (res: Response)
      requires Valid()
      modifies this, db`usuarios
      ensures Valid() && db.postres == old(db.postres)
      ensures storeFails ==>
        && db.usuarios == old(db.usuarios)
        && responseAPI == Fail(old(responseAPI), MsgPurgeError)
        && res == Response(500, Sent(responseAPI))
      ensures !storeFails && id !in old(db.usuarios.docs) ==>
        && db.usuarios == old(db.usuarios) && responseAPI == old(responseAPI)
        && res == Response(404, ErrorJson(MsgPurgeNotFound))
      ensures !storeFails && id in old(db.usuarios.docs) ==>
        && db.usuarios == Purge(old(db.usuarios), id)
        && responseAPI == Succeed(old(responseAPI), User(Entry(id, old(db.usuarios.docs[id]))), MsgPurged)
        && res == Response(200, Sent(responseAPI))
    {
      if storeFails {
        responseAPI := responseAPI.(msg := MsgPurgeError);
        responseAPI := responseAPI.(status := StatusError);
        res := Response(500, Sent(responseAPI));
        return;
      }
      var deletedUser := FindById(db.usuarios, id);
      db.usuarios := Purge(db.usuarios, id);
      if deletedUser.None? {
        res := Response(404, ErrorJson(MsgPurgeNotFound));
        return;
      }
      responseAPI := responseAPI.(data := User(Entry(id, deletedUser.value)));
      responseAPI := responseAPI.(msg := MsgPurged);
      res := Response(200, Sent(responseAPI));
    }
  }
}
