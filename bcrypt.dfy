/** The password hashing primitive `register` and `login` call. Only its contract
    is modelled: a digest records its cost and salt, and `Compare` accepts exactly
    the password the digest was made from. */
module Bcrypt {

  /** The cost factor that `register` passes to `bcrypt.hash`. */
  const SaltRounds: nat := 10

  /** The random salt `bcrypt.hash` draws; the model takes it as an input. */
  type Salt = nat

  /** The derived key. The model keeps the password itself inside it, which makes
      the key injective (two different passwords never share one) but not one-way:
      the plaintext is kept out of a stored user only in that its `password` path
      has the type `Digest`, not `string`. */
  datatype Key = Derived(secret: string)

  /** An encoded bcrypt digest, as stored in a user's `password` path. */
  datatype Digest = Digest(cost: nat, salt: Salt, key: Key)

  /** `bcrypt.hash(password, cost)` with the salt it drew: the encoded digest
      carries that cost and salt. */
  function Hash(password: string, cost: nat, salt: Salt): (d: Digest)
    ensures d.cost == cost && d.salt == salt
  {
    Digest(cost, salt, Derived(password))
  }

  /** `bcrypt.compare(password, digest)`: hash again with the digest's own cost
      and salt and compare. A digest made from some password accepts exactly
      that password. */
  function Compare(password: string, digest: Digest): (b: bool)
    ensures forall p, c, s :: digest == Hash(p, c, s) ==> (b <==> password == p)
  {
    Hash(password, digest.cost, digest.salt) == digest
  }

  /** A digest made from a password is accepted for that password... */
  lemma CompareAcceptsOwnHash(password: string, cost: nat, salt: Salt)
    ensures Compare(password, Hash(password, cost, salt))
  {
  }

  /** ...and for no other. */
  lemma CompareRejectsOthers(password: string, other: string, cost: nat, salt: Salt)
    ensures Compare(other, Hash(password, cost, salt)) <==> other == password
  {
  }
}
