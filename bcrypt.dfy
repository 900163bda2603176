/**
 * bcryptjs as the credential code uses it: `bcrypt.hash(password, 10)` at
 * registration and `bcrypt.compare(password, digest)` at sign-in. The
 * expensive key derivation (EksBlowfish over the salt, the cost and the
 * password) is a parameter, `kdf`, about which nothing is assumed.
 */
module Bcrypt {

  type Bytes = seq<bv8>

  /** The key derivation: cost, salt, password to checksum. */
  type Kdf = (nat, Bytes, string) -> Bytes

  /** The cost factor the registration passes to `bcrypt.hash`. */
  const SaltRounds: nat := 10

  /** A bcrypt digest: it records its cost and salt beside the checksum, never the password. */
  datatype Digest = Digest(cost: nat, salt: Bytes, checksum: Bytes)

  /** `bcrypt.compare(password, d)`: derive again with the digest's own cost and salt. */
  predicate Matches(kdf: Kdf, password: string, d: Digest)
  {
    kdf(d.cost, d.salt, password) == d.checksum
  }

  /** `bcrypt.hash(password, 10)` with the random salt made a parameter. */
  function Hash(kdf: Kdf, password: string, salt: Bytes): (d: Digest)
    ensures d.cost == SaltRounds && d.salt == salt
    ensures Matches(kdf, password, d)
  {
    Digest(SaltRounds, salt, kdf(SaltRounds, salt, password))
  }

  /**
   * `compare` against a digest made with the registration's cost succeeds
   * exactly when hashing the password again with the digest's own salt
   * reproduces the digest.
   */
  lemma CompareRehashes(kdf: Kdf, password: string, d: Digest)
    requires d.cost == SaltRounds
    ensures Matches(kdf, password, d) <==> Hash(kdf, password, d.salt) == d
  {
  }
}
