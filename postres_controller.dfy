/** controllers/postres.controller.js: the dessert handlers. */
module Postres {
  import opened Documents
  import opened Lifecycle
  import opened Models
  import opened Responses
  import opened Persistence

  const MsgListed := "Postres obtenidos con éxito"
  const MsgListError := "Error al obtener postres"
  const MsgCreated := "Postre creado exitosamente"
  const MsgCreateError := "Error al crear el postre"
  const MsgUpdated := "Postre actualizado exitosamente"
  const MsgUpdateNotFound := "No se encontró el postre"
  const MsgUpdateError := "Error al actualizar el postre"
  const MsgPurged := "Postre eliminado exitosamente"
  const MsgDeleteNotFound := "No se encontró el postre para eliminar"
  const MsgPurgeError := "Error al eliminar el postre"
  const MsgSoftDeleted := "Postre eliminado de manera temporal exitosamente"
  const MsgSoftDeleteError := "Error al eliminar de manera temporal el postre"
  const MsgRestored := "Postre restaurado exitosamente"
  const MsgRestoreNotFound := "No se encontró el postre para restaurar"
  const MsgRestoreError := "Error al restaurar el postre"

  /** The handlers and this module's `responseAPI`. Every handler takes
      `storeFails`: whether the store throws on this request, which lands in
      the handler's catch block before anything is written. */
  class PostresController {
    const db: Database
    var responseAPI: Envelope

    ghost predicate Valid()
      reads this, db
    {
      db.Valid()
    }

    constructor (db: Database)
      requires db.Valid()
      ensures Valid() && this.db == db && responseAPI == Initial()
    {
      this.db := db;
      responseAPI := Initial();
    }

    /** getAllPostres: every dessert, soft-deleted ones included; an empty
        collection is a success. */
    method GetAllPostres(storeFails: bool) returns (res: Response)
      requires Valid()
      modifies this
      ensures Valid()
      ensures storeFails ==> responseAPI == Fail(old(responseAPI), MsgListError) && res == Response(500, Sent(responseAPI))
      ensures !storeFails ==>
        && responseAPI == Succeed(old(responseAPI), Desserts(FindAll(db.postres)), MsgListed)
        && res == Response(200, Sent(responseAPI))
    {
      if storeFails {
        responseAPI := responseAPI.(msg := MsgListError);
        responseAPI := responseAPI.(status := StatusError);
        res := Response(500, Sent(responseAPI));
        return;
      }
      var postres := FindAll(db.postres);
      responseAPI := responseAPI.(data := Desserts(postres));
      responseAPI := responseAPI.(msg := MsgListed);
      res := Response(200, Sent(responseAPI));
    }

    /** createPostre: the body fields as given, the uploaded file's name and the
        given owner, who is not looked up. Without an upload the handler fails
        before saving. */
    method CreatePostre(form: DessertForm, userId: Option<Id>, file: Option<string>, now: nat, storeFails: bool)
      returns (res: Response)
      requires Valid()
      modifies this, db`postres
      ensures Valid() && db.usuarios == old(db.usuarios)
      ensures storeFails || file.None? ==>
        && db.postres == old(db.postres)
        && responseAPI == Fail(old(responseAPI), MsgCreateError)
        && res == Response(500, Sent(responseAPI))
      ensures !storeFails && file.Some? ==>
        var id := old(db.postres.nextId);
        && db.postres == Insert(old(db.postres), NewPostre(form, file.value, userId), now)
        && responseAPI == Succeed(old(responseAPI), Dessert(Entry(id, db.postres.docs[id])), MsgCreated)
        && res == Response(200, Sent(responseAPI))
    {
      if storeFails || file.None? {
        responseAPI := responseAPI.(msg := MsgCreateError);
        responseAPI := responseAPI.(status := StatusError);
        res := Response(500, Sent(responseAPI));
        return;
      }
      var nuevoPostre := NewPostre(form, file.value, userId);
      var id := db.postres.nextId;
      db.postres := Insert(db.postres, nuevoPostre, now);
      responseAPI := responseAPI.(data := Dessert(Entry(id, db.postres.docs[id])));
      responseAPI := responseAPI.(msg := MsgCreated);
      res := Response(200, Sent(responseAPI));
    }

    /** updatePostre: loads the dessert, overwrites each field whose supplied
        value is truthy, and saves it. */
    method UpdatePostre(id: Id, form: DessertForm, storeFails: bool) returns (res: Response)
      requires Valid()
      modifies this, db`postres
      ensures Valid() && db.usuarios == old(db.usuarios)
      ensures storeFails ==>
        && db.postres == old(db.postres)
        && responseAPI == Fail(old(responseAPI), MsgUpdateError)
        && res == Response(500, Sent(responseAPI))
      ensures !storeFails && id !in old(db.postres.docs) ==>
        && db.postres == old(db.postres) && responseAPI == old(responseAPI)
        && res == Response(404, ErrorJson(MsgUpdateNotFound))
      ensures !storeFails && id in old(db.postres.docs) ==>
        && db.postres == Replace(old(db.postres), id, Merge(old(db.postres.docs[id].body), form))
        && responseAPI == Succeed(old(responseAPI), Dessert(Entry(id, db.postres.docs[id])), MsgUpdated)
        && res == Response(200, Sent(responseAPI))
    {
      if storeFails {
        responseAPI := responseAPI.(msg := MsgUpdateError);
        responseAPI := responseAPI.(status := StatusError);
        res := Response(500, Sent(responseAPI));
        return;
      }
      var found := FindById(db.postres, id);
      if found.None? {
        res := Response(404, ErrorJson(MsgUpdateNotFound));
        return;
      }
      var postre := found.value.body;
      if Truthy(form.nombre) {
        postre := postre.(nombre := form.nombre);
      }
      if Truthy(form.descripcion) {
        postre := postre.(descripcion := form.descripcion);
      }
      if Truthy(form.ingredientes) {
        postre := postre.(ingredientes := form.ingredientes);
      }
      if Truthy(form.instrucciones) {
        postre := postre.(instrucciones := form.instrucciones);
      }
      if Truthy(form.dificultad) {
        postre := postre.(dificultad := form.dificultad);
      }
      if Truthy(form.tiempo) {
        postre := postre.(tiempo := form.tiempo);
      }
      assert postre == Merge(found.value.body, form);
      db.postres := Replace(db.postres, id, postre);
      responseAPI := responseAPI.(data := Dessert(Entry(id, db.postres.docs[id])));
      responseAPI := responseAPI.(msg := MsgUpdated);
      res := Response(200, Sent(responseAPI));
    }

    /** deletePostreForever: removes the dessert and answers with it. */
    method DeletePostreForever(id: Id, storeFails: bool) returns (res: Response)
      requires Valid()
      modifies this, db`postres
      ensures Valid() && db.usuarios == old(db.usuarios)
      ensures storeFails ==>
        && db.postres == old(db.postres)
        && responseAPI == Fail(old(responseAPI), MsgPurgeError)
        && res == Response(500, Sent(responseAPI))
      ensures !storeFails && id !in old(db.postres.docs) ==>
        && db.postres == old(db.postres) && responseAPI == old(responseAPI)
        && res == Response(404, ErrorJson(MsgDeleteNotFound))
      ensures !storeFails && id in old(db.postres.docs) ==>
        && db.postres == Purge(old(db.postres), id)
        && responseAPI == Succeed(old(responseAPI), Dessert(Entry(id, old(db.postres.docs[id]))), MsgPurged)
        && res == Response(200, Sent(responseAPI))
    {
      if storeFails {
        responseAPI := responseAPI.(msg := MsgPurgeError);
        responseAPI := responseAPI.(status := StatusError);
        res := Response(500, Sent(responseAPI));
        return;
      }
      var deletedPostre := FindById(db.postres, id);
      db.postres := Purge(db.postres, id);
      if deletedPostre.None? {
        res := Response(404, ErrorJson(MsgDeleteNotFound));
        return;
      }
      responseAPI := responseAPI.(data := Dessert(Entry(id, deletedPostre.value)));
      responseAPI := responseAPI.(msg := MsgPurged);
      res := Response(200, Sent(responseAPI));
    }

    /** deletePostre: stamps `deleted_at` with the clock and answers with the
        updated dessert. */
    method DeletePostre(id: Id, now: nat, storeFails: bool) returns (res: Response)
      requires Valid()
      modifies this, db`postres
      ensures Valid() && db.usuarios == old(db.usuarios)
      ensures storeFails ==>
        && db.postres == old(db.postres)
        && responseAPI == Fail(old(responseAPI), MsgSoftDeleteError)
        && res == Response(500, Sent(responseAPI))
      ensures !storeFails && id !in old(db.postres.docs) ==>
        && db.postres == old(db.postres) && responseAPI == old(responseAPI)
        && res == Response(404, ErrorJson(MsgDeleteNotFound))
      ensures !storeFails && id in old(db.postres.docs) ==>
        && db.postres == SoftDelete(old(db.postres), id, now)
        && responseAPI == Succeed(old(responseAPI), Dessert(Entry(id, db.postres.docs[id])), MsgSoftDeleted)
        && res == Response(200, Sent(responseAPI))
    {
      if storeFails {
        responseAPI := responseAPI.(msg := MsgSoftDeleteError);
        responseAPI := responseAPI.(status := StatusError);
        res := Response(500, Sent(responseAPI));
        return;
      }
      db.postres := SoftDelete(db.postres, id, now);
      var deletePostre := FindById(db.postres, id);
      if deletePostre.None? {
        res := Response(404, ErrorJson(MsgDeleteNotFound));
        return;
      }
      responseAPI := responseAPI.(data := Dessert(Entry(id, deletePostre.value)));
      responseAPI := responseAPI.(msg := MsgSoftDeleted);
      res := Response(200, Sent(responseAPI));
    }

    /** restorePostre: clears `deleted_at`, whatever it held. */
    method RestorePostre(id: Id, storeFails: bool) returns (res: Response)
      requires Valid()
      modifies this, db`postres
      ensures Valid() && db.usuarios == old(db.usuarios)
      ensures storeFails ==>
        && db.postres == old(db.postres)
        && responseAPI == Fail(old(responseAPI), MsgRestoreError)
        && res == Response(500, Sent(responseAPI))
      ensures !storeFails && id !in old(db.postres.docs) ==>
        && db.postres == old(db.postres) && responseAPI == old(responseAPI)
        && res == Response(404, ErrorJson(MsgRestoreNotFound))
      ensures !storeFails && id in old(db.postres.docs) ==>
        && db.postres == Restore(old(db.postres), id)
        && responseAPI == Succeed(old(responseAPI), Dessert(Entry(id, db.postres.docs[id])), MsgRestored)
        && res == Response(200, Sent(responseAPI))
    {
      if storeFails {
        responseAPI := responseAPI.(msg := MsgRestoreError);
        responseAPI := responseAPI.(status := StatusError);
        res := Response(500, Sent(responseAPI));
        return;
      }
      db.postres := Restore(db.postres, id);
      var restoredPostre := FindById(db.postres, id);
      if restoredPostre.None? {
        res := Response(404, ErrorJson(MsgRestoreNotFound));
        return;
      }
      responseAPI := responseAPI.(data := Dessert(Entry(id, restoredPostre.value)));
      responseAPI := responseAPI.(msg := MsgRestored);
      res := Response(200, Sent(responseAPI));
    }
  }
}
