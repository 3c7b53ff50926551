/** The document store behind the Mongoose models `Postre` and `Usuario`,
    reduced to an in-memory collection per model: a map from identifier to
    document and the next identifier to hand out. */
module Documents {

  datatype Option<+T> = None | Some(value: T)

  /** Document identifiers, handed out in allocation order. */
  type Id = nat

  /** A stored document: the schema's own fields (`body`) and the three
      timestamps both schemas declare. Creation and update times default to
      the clock at creation; `deleted_at` defaults to null (None). */
  datatype Document<T> = Document(body: T, created_at: nat, updated_at: nat, deleted_at: Option<nat>)

  /** A document as a query returns it: with its identifier. */
  datatype Entry<T> = Entry(id: Id, doc: Document<T>)

  datatype Collection<T> = Collection(docs: map<Id, Document<T>>, nextId: Id)

  /** Every stored identifier was handed out before `nextId`. */
  ghost predicate WellFormed<T>(c: Collection<T>)
  {
    forall id :: id in c.docs ==> id < c.nextId
  }

  /** The documents of `docs` whose identifier is below `n`, in ascending
      identifier order. */
  function EntriesBelow<T>(docs: map<Id, Document<T>>, n: nat): (r: seq<Entry<T>>)
    ensures forall i :: 0 <= i < |r| ==> r[i].id < n && r[i].id in docs && docs[r[i].id] == r[i].doc
    ensures forall i, j :: 0 <= i < j < |r| ==> r[i].id < r[j].id
    ensures forall id :: id in docs && id < n ==> Entry(id, docs[id]) in r
  {
    if n == 0 then []
    else
      var below := EntriesBelow(docs, n - 1);
      if n - 1 in docs then below + [Entry(n - 1, docs[n - 1])] else below
  }

  /** Model.find() with no filter: every document of the collection, whatever
      its `deleted_at`, once each, in insertion order. */
  function FindAll<T>(c: Collection<T>): (r: seq<Entry<T>>)
    requires WellFormed(c)
    ensures forall i :: 0 <= i < |r| ==> r[i].id in c.docs && c.docs[r[i].id] == r[i].doc
    ensures forall id :: id in c.docs ==> Entry(id, c.docs[id]) in r
    ensures forall i, j :: 0 <= i < j < |r| ==> r[i].id < r[j].id
  {
    EntriesBelow(c.docs, c.nextId)
  }

  /** The position of the first entry whose body satisfies `p`, or |entries|. */
  function FirstMatch<T>(entries: seq<Entry<T>>, p: T -> bool): (k: nat)
    ensures k <= |entries|
    ensures forall j :: 0 <= j < k ==> !p(entries[j].doc.body)
    ensures k < |entries| ==> p(entries[k].doc.body)
  {
    if |entries| == 0 then 0
    else if p(entries[0].doc.body) then 0
    else 1 + FirstMatch(entries[1..], p)
  }

  /** Model.findOne(filter): the first document, in natural order, that the
      filter matches, or null. */
  function FindOne<T>(c: Collection<T>, p: T -> bool): (r: Option<Entry<T>>)
    requires WellFormed(c)
    ensures r.None? <==> forall id :: id in c.docs ==> !p(c.docs[id].body)
    ensures r.Some? ==> r.value.id in c.docs && c.docs[r.value.id] == r.value.doc && p(r.value.doc.body)
    ensures r.Some? ==> forall id :: id in c.docs && id < r.value.id ==> !p(c.docs[id].body)
  {
    var all := FindAll(c);
    var k := FirstMatch(all, p);
    if k < |all| then Some(all[k]) else None
  }

  /** Model.findById(id). */
  function FindById<T>(c: Collection<T>, id: Id): (r: Option<Document<T>>)
    ensures r.Some? <==> id in c.docs
    ensures r.Some? ==> r.value == c.docs[id]
  {
    if id in c.docs then Some(c.docs[id]) else None
  }

  /** Saving a new document: it receives the next identifier, both creation
      timestamps set to `now`, and `deleted_at` null. */
  function Insert<T>(c: Collection<T>, body: T, now: nat): (r: Collection<T>)
    requires WellFormed(c)
    ensures WellFormed(r) && r.nextId == c.nextId + 1
    ensures c.nextId !in c.docs && r.docs.Keys == c.docs.Keys + {c.nextId}
    ensures |r.docs| == |c.docs| + 1
    ensures forall id :: id in c.docs ==> r.docs[id] == c.docs[id]
    ensures r.docs[c.nextId].body == body && r.docs[c.nextId].deleted_at == None
    ensures r.docs[c.nextId].created_at == now && r.docs[c.nextId].updated_at == now
  {
    Collection(c.docs[c.nextId := Document(body, now, now, None)], c.nextId + 1)
  }

  /** Saving a loaded document after changing its schema fields in place: the
      timestamps are not touched (neither schema updates `updated_at`). */
  function Replace<T>(c: Collection<T>, id: Id, body: T): (r: Collection<T>)
    requires id in c.docs
    ensures WellFormed(c) ==> WellFormed(r)
    ensures r.nextId == c.nextId && r.docs.Keys == c.docs.Keys
    ensures forall k :: k in c.docs && k != id ==> r.docs[k] == c.docs[k]
    ensures r.docs[id].body == body
    ensures r.docs[id].created_at == c.docs[id].created_at && r.docs[id].updated_at == c.docs[id].updated_at
    ensures r.docs[id].deleted_at == c.docs[id].deleted_at
  {
    Collection(c.docs[id := c.docs[id].(body := body)], c.nextId)
  }
}
