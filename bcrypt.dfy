/**
 * A stand-in for bcrypt.  A secret has bcrypt's layout: the version and cost
 * prefix "$2b$10$" (cost factor 10), a 22-character salt and a digest.  The
 * salt is random in bcrypt, so here it is a parameter.  The digest of this
 * stand-in is the password itself: it gives `Verify` exactly the behaviour
 * the callers rely on (it accepts the hashed password and only it), but it is
 * not one-way.
 */
module Bcrypt {

  const Prefix: string := "$2b$10$"
  const SaltLength: nat := 22

  type Salt = s: string | |s| == SaltLength witness "abcdefghijklmnopqrstuv"

  /** The shape of a secret that `Hash` produces. */
  predicate IsSecret(secret: string)
  {
    |secret| >= |Prefix| + SaltLength && secret[..|Prefix|] == Prefix
  }

  function SaltOf(secret: string): string
    requires IsSecret(secret)
  {
    secret[|Prefix|..|Prefix| + SaltLength]
  }

  /** bcrypt.hash(password, 10) with the salt it would draw. */
  function Hash(password: string, salt: Salt): (secret: string)
    ensures IsSecret(secret) && SaltOf(secret) == salt
    ensures secret != password
    ensures Verify(password, secret)
  {
    var secret := Prefix + salt + password;
    assert secret[..|Prefix|] == Prefix;
    assert secret[|Prefix|..|Prefix| + SaltLength] == salt;
    assert secret[|Prefix| + SaltLength..] == password;
    secret
  }

  /**
   * bcrypt.compare(password, secret): a malformed secret is not an error, it
   * only fails to match.
   */
  function Verify(password: string, secret: string): (ok: bool)
    ensures ok ==> IsSecret(secret)
  {
    IsSecret(secret) && secret[|Prefix| + SaltLength..] == password
  }

  /** A secret verifies against the password it was made from and against no other. */
  lemma VerifyOnlyOriginal(candidate: string, password: string, salt: Salt)
    ensures Verify(candidate, Hash(password, salt)) <==> candidate == password
  {
  }

  /**
   * Hashing one password twice with two different salts gives two different
   * secrets, and both of them verify against the password.
   */
  lemma SaltedHashesDiffer(password: string, salt1: Salt, salt2: Salt)
    requires salt1 != salt2
    ensures Hash(password, salt1) != Hash(password, salt2)
    ensures Verify(password, Hash(password, salt1)) && Verify(password, Hash(password, salt2))
  {
  }
}
