/** The soft-delete / restore / purge life of a stored document, the same for
    desserts and users. A document is active while `deleted_at` is null,
    soft-deleted while it holds a time, and gone once purged. */
module Lifecycle {
  import opened Documents

  /** findByIdAndUpdate(id, { $set: { deleted_at: new Date() } }): stamps the
      document with the clock; an unknown id changes nothing. */
  function SoftDelete<T>(c: Collection<T>, id: Id, now: nat): (r: Collection<T>)
    ensures WellFormed(c) ==> WellFormed(r)
    ensures r.nextId == c.nextId && r.docs.Keys == c.docs.Keys
    ensures forall k :: k in c.docs && k != id ==> r.docs[k] == c.docs[k]
    ensures id in c.docs ==> r.docs[id].deleted_at == Some(now)
    ensures id in c.docs ==> r.docs[id].(deleted_at := c.docs[id].deleted_at) == c.docs[id]
  {
    if id in c.docs then Collection(c.docs[id := c.docs[id].(deleted_at := Some(now))], c.nextId) else c
  }

  /** findByIdAndUpdate(id, { $set: { deleted_at: null } }): clears the stamp,
      whether or not the document was deleted; an unknown id changes nothing. */
  function Restore<T>(c: Collection<T>, id: Id): (r: Collection<T>)
    ensures WellFormed(c) ==> WellFormed(r)
    ensures r.nextId == c.nextId && r.docs.Keys == c.docs.Keys
    ensures forall k :: k in c.docs && k != id ==> r.docs[k] == c.docs[k]
    ensures id in c.docs ==> r.docs[id].deleted_at == None
    ensures id in c.docs ==> r.docs[id].(deleted_at := c.docs[id].deleted_at) == c.docs[id]
  {
    if id in c.docs then Collection(c.docs[id := c.docs[id].(deleted_at := None)], c.nextId) else c
  }

  /** findByIdAndDelete(id): removes the document for good. */
  function Purge<T>(c: Collection<T>, id: Id): (r: Collection<T>)
    ensures WellFormed(c) ==> WellFormed(r)
    ensures r.nextId == c.nextId && id !in r.docs
    ensures forall k :: k != id ==> (k in r.docs <==> k in c.docs)
    ensures forall k :: k in r.docs ==> r.docs[k] == c.docs[k]
    ensures id in c.docs ==> |r.docs| == |c.docs| - 1
  {
    Collection(c.docs - {id}, c.nextId)
  }

  /** Soft delete then restore gives back the active document unchanged. */
  lemma RestoreUndoesSoftDelete<T>(c: Collection<T>, id: Id, now: nat)
    requires id in c.docs && c.docs[id].deleted_at == None
    ensures Restore(SoftDelete(c, id, now), id) == c
  {
    var r := Restore(SoftDelete(c, id, now), id);
    assert r.docs == c.docs;
  }

  /** For any record, soft delete then restore is restore alone: the pair
      changes nothing but `deleted_at`, which ends up null. */
  lemma SoftDeleteThenRestore<T>(c: Collection<T>, id: Id, now: nat)
    ensures Restore(SoftDelete(c, id, now), id) == Restore(c, id)
  {
    var r1, r2 := Restore(SoftDelete(c, id, now), id), Restore(c, id);
    assert r1.docs == r2.docs;
  }

  /** Restoring twice is restoring once. */
  lemma RestoreIdempotent<T>(c: Collection<T>, id: Id)
    ensures Restore(Restore(c, id), id) == Restore(c, id)
  {
  }

  /** A second soft delete only refreshes the stamp. */
  lemma SoftDeleteRefreshes<T>(c: Collection<T>, id: Id, t1: nat, t2: nat)
    ensures SoftDelete(SoftDelete(c, id, t1), id, t2) == SoftDelete(c, id, t2)
  {
    if id in c.docs {
      assert SoftDelete(SoftDelete(c, id, t1), id, t2).docs == SoftDelete(c, id, t2).docs;
    }
  }

  /** Every way a handler changes one collection: creating, saving a loaded
      document, soft delete, restore and purge. */
  datatype Op<T> =
    | Create(body: T, now: nat)
    | Save(id: Id, body: T)
    | Delete(id: Id, now: nat)
    | Undelete(id: Id)
    | DeleteForever(id: Id)

  function Apply<T>(c: Collection<T>, op: Op<T>): (r: Collection<T>)
    requires WellFormed(c)
    ensures WellFormed(r) && c.nextId <= r.nextId
    ensures forall id :: id in r.docs && id < c.nextId ==> id in c.docs
  {
    match op
    case Create(body, now) => Insert(c, body, now)
    case Save(id, body) => if id in c.docs then Replace(c, id, body) else c
    case Delete(id, now) => SoftDelete(c, id, now)
    case Undelete(id) => Restore(c, id)
    case DeleteForever(id) => Purge(c, id)
  }

  function Run<T>(c: Collection<T>, ops: seq<Op<T>>): (r: Collection<T>)
    requires WellFormed(c)
    ensures WellFormed(r)
    decreases |ops|
  {
    if ops == [] then c else Run(Apply(c, ops[0]), ops[1..])
  }

  /** An identifier that was handed out and is no longer stored never comes
      back, whatever operations follow: identifiers are not reused. */
  lemma {:induction false} GoneStaysGone<T>(c: Collection<T>, id: Id, ops: seq<Op<T>>)
    requires WellFormed(c) && id < c.nextId && id !in c.docs
    ensures id !in Run(c, ops).docs
    decreases |ops|
  {
    if ops != [] {
      GoneStaysGone(Apply(c, ops[0]), id, ops[1..]);
    }
  }

  /** Purge is terminal: after it, no sequence of operations brings the
      document back, so every later lookup by that id finds nothing. */
  lemma PurgeIsTerminal<T>(c: Collection<T>, id: Id, ops: seq<Op<T>>)
    requires WellFormed(c) && id in c.docs
    ensures FindById(Run(Purge(c, id), ops), id) == None
  {
    GoneStaysGone(Purge(c, id), id, ops);
  }
}
