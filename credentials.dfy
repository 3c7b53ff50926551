/** The password hashing used by registration and login (bcrypt's hashSync and
    compareSync), reduced to the two promises the handlers rely on: a digest
    verifies against the secret it was made from, and against no other. */
module Credentials {

  /** A stored password digest. bcrypt embeds its salt in the digest; the rest
      of the model never looks inside one, it only hands it to Verify. */
  datatype HashedSecret = Digest(preimage: string, salt: nat)

  /** hashSync(secret, 10). The salt is the randomness bcrypt draws on every
      call; it is a parameter here. */
  function Hash(secret: string, salt: nat): (h: HashedSecret)
    ensures Verify(secret, h)
  {
    Digest(secret, salt)
  }

  /** compareSync(secret, h). */
  function Verify(secret: string, h: HashedSecret): bool
  {
    h.preimage == secret
  }

  /** A digest accepts the secret it was made from and nothing else. */
  lemma VerifyAcceptsOnlyItsSecret(secret: string, other: string, salt: nat)
    ensures Verify(secret, Hash(other, salt)) <==> secret == other
  {
  }

  /** Salting: hashing the same secret twice with different salts gives two
      different stored digests. */
  lemma SaltedDigestsDiffer(secret: string, salt1: nat, salt2: nat)
    requires salt1 != salt2
    ensures Hash(secret, salt1) != Hash(secret, salt2)
  {
  }
}
