/** The two schemas (models/postre.js, models/usuario.js) and the pure parts
    of building and changing their documents. */
module Models {
  import opened Documents
  import opened Credentials

  /** A string field of a request body: absent (undefined) or a string. */
  type Field = Option<string>

  /** JavaScript truthiness of a body field. Of the values a field can hold
      here, exactly undefined and "" are falsy; the other falsy JSON values
      (0, false, null) are not representable as a field. */
  function Truthy(f: Field): (b: bool)
    ensures !b <==> f in {None, Some("")}
  {
    f.Some? && f.value != ""
  }

  /** The six dessert fields a client sends in the body. */
  datatype DessertForm = DessertForm(
    nombre: Field,
    descripcion: Field,
    ingredientes: Field,
    instrucciones: Field,
    dificultad: Field,
    tiempo: Field)

  /** A dessert's schema fields. `imagen` is the stored upload's file name and
      `idUser` the owner's identifier, a reference that nothing validates. */
  datatype Postre = Postre(
    nombre: Field,
    imagen: string,
    descripcion: Field,
    ingredientes: Field,
    instrucciones: Field,
    dificultad: Field,
    tiempo: Field,
    idUser: Option<Id>)

  /** The six client-editable fields of a stored dessert. */
  function FormOf(p: Postre): DessertForm
  {
    DessertForm(p.nombre, p.descripcion, p.ingredientes, p.instrucciones, p.dificultad, p.tiempo)
  }

  /** The dessert createPostre builds: the body fields as given, the upload's
      file name and the given owner. */
  function NewPostre(form: DessertForm, imagen: string, userId: Option<Id>): (p: Postre)
    ensures FormOf(p) == form
    ensures p.imagen == imagen && p.idUser == userId
  {
    Postre(form.nombre, imagen, form.descripcion, form.ingredientes, form.instrucciones,
           form.dificultad, form.tiempo, userId)
  }

  /** One guarded assignment of updatePostre: the supplied value wins only when
      it is truthy. */
  function Pick(stored: Field, supplied: Field): (r: Field)
    ensures Truthy(supplied) ==> r == supplied
    ensures !Truthy(supplied) ==> r == stored
  {
    if Truthy(supplied) then supplied else stored
  }

  /** The dessert updatePostre saves: each of the six fields is overwritten
      when, and only when, its supplied value is truthy; the image and the
      owner are never changed. */
  function Merge(p: Postre, form: DessertForm): (r: Postre)
    ensures r.imagen == p.imagen && r.idUser == p.idUser
    ensures r.nombre != p.nombre ==> Truthy(form.nombre) && r.nombre == form.nombre
    ensures r.descripcion != p.descripcion ==> Truthy(form.descripcion) && r.descripcion == form.descripcion
    ensures r.ingredientes != p.ingredientes ==> Truthy(form.ingredientes) && r.ingredientes == form.ingredientes
    ensures r.instrucciones != p.instrucciones ==> Truthy(form.instrucciones) && r.instrucciones == form.instrucciones
    ensures r.dificultad != p.dificultad ==> Truthy(form.dificultad) && r.dificultad == form.dificultad
    ensures r.tiempo != p.tiempo ==> Truthy(form.tiempo) && r.tiempo == form.tiempo
    ensures Truthy(form.nombre) ==> r.nombre == form.nombre
    ensures Truthy(form.descripcion) ==> r.descripcion == form.descripcion
    ensures Truthy(form.ingredientes) ==> r.ingredientes == form.ingredientes
    ensures Truthy(form.instrucciones) ==> r.instrucciones == form.instrucciones
    ensures Truthy(form.dificultad) ==> r.dificultad == form.dificultad
    ensures Truthy(form.tiempo) ==> r.tiempo == form.tiempo
  {
    Postre(Pick(p.nombre, form.nombre), p.imagen, Pick(p.descripcion, form.descripcion),
           Pick(p.ingredientes, form.ingredientes), Pick(p.instrucciones, form.instrucciones),
           Pick(p.dificultad, form.dificultad), Pick(p.tiempo, form.tiempo), p.idUser)
  }

  /** A form of empty or absent values changes nothing. */
  lemma MergeFalsyFormKeeps(p: Postre, form: DessertForm)
    requires !Truthy(form.nombre) && !Truthy(form.descripcion) && !Truthy(form.ingredientes)
    requires !Truthy(form.instrucciones) && !Truthy(form.dificultad) && !Truthy(form.tiempo)
    ensures Merge(p, form) == p
  {
  }

  /** Sending the same update twice is sending it once. */
  lemma MergeIdempotent(p: Postre, form: DessertForm)
    ensures Merge(Merge(p, form), form) == Merge(p, form)
  {
  }

  /** A user's schema fields. `clave` holds only a digest of the password. */
  datatype Usuario = Usuario(
    nombre: string,
    clave: HashedSecret,
    imagen: string,
    descripcion: Field,
    isAdmin: bool,
    isLogged: bool)

  /** A user as the authentication handlers return it: without `clave`. */
  datatype Profile = Profile(
    nombre: string,
    imagen: string,
    descripcion: Field,
    isAdmin: bool,
    isLogged: bool)

  /** The user document with `clave` deleted. */
  function Public(d: Document<Usuario>): (r: Document<Profile>)
    ensures r.body.nombre == d.body.nombre && r.body.imagen == d.body.imagen
    ensures r.body.descripcion == d.body.descripcion
    ensures r.body.isAdmin == d.body.isAdmin && r.body.isLogged == d.body.isLogged
    ensures r.created_at == d.created_at && r.updated_at == d.updated_at && r.deleted_at == d.deleted_at
  {
    var u := d.body;
    Document(Profile(u.nombre, u.imagen, u.descripcion, u.isAdmin, u.isLogged),
             d.created_at, d.updated_at, d.deleted_at)
  }

  /** The projection forgets the password digest and nothing else: two user
      documents look the same to a caller exactly when they differ at most in
      `clave`. */
  lemma PublicForgetsOnlyClave(d1: Document<Usuario>, d2: Document<Usuario>)
    ensures Public(d1) == Public(d2) <==> d1 == d2.(body := d2.body.(clave := d1.body.clave))
  {
  }

  /** The user createUser builds: a new account is neither administrator nor
      logged in. */
  function NewUsuario(nombre: string, clave: HashedSecret, imagen: string, descripcion: Field): (u: Usuario)
    ensures u.nombre == nombre && u.clave == clave && u.imagen == imagen && u.descripcion == descripcion
    ensures !u.isAdmin && !u.isLogged
  {
    Usuario(nombre, clave, imagen, descripcion, false, false)
  }
}
