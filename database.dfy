/** The database the three controller modules share: one collection per
    Mongoose model. */
module Persistence {
  import opened Documents
  import opened Models
  import opened Accounts

  class Database {
    var postres: Collection<Postre>
    var usuarios: Collection<Usuario>

    /** Identifiers are allocated from each collection's counter, and user
        names are unique: registration is the only way users are created. */
    ghost predicate Valid()
      reads this
    {
      WellFormed(postres) && WellFormed(usuarios) && UniqueNames(usuarios)
    }

    constructor ()
      ensures Valid()
      ensures postres.docs == map[] && usuarios.docs == map[]
    {
      postres := Collection(map[], 0);
      usuarios := Collection(map[], 0);
    }
  }
}
