/**
 * An ideal stand-in for golang.org/x/crypto/bcrypt. The rest of the model uses
 * it only through IsHash and the lemmas below: verification succeeds for the
 * hashed password and for no other, and a hash is never the plaintext it hides.
 * The concrete witness (version and cost tag, a 22-character salt, then an
 * injective encoding of the password) has no cryptographic meaning.
 */
module Bcrypt {

  /** "$2a$" and bcrypt.DefaultCost (10) in the modular-crypt prefix. */
  const Prefix: string := "$2a$10$"
  const SaltLength: nat := 22

  /** The random salt that GenerateFromPassword draws; here an input. */
  type Salt = s: string | |s| == SaltLength witness "......................"

  /** bcrypt.GenerateFromPassword */
  function Hash(salt: Salt, password: string): (h: string)
    ensures IsHash(h)
  {
    Prefix + salt + Encode(password)
  }

  /** The ideal digest: injective and always longer than its input. */
  function Encode(password: string): (d: string)
    ensures |d| == |password| + 1
  {
    "#" + password
  }

  /** A string in the shape GenerateFromPassword produces. */
  predicate IsHash(h: string) {
    |h| > |Prefix| + SaltLength && h[..|Prefix|] == Prefix
  }

  /** bcrypt.CompareHashAndPassword returning nil. */
  predicate Verify(h: string, password: string) {
    IsHash(h) && h[|Prefix| + SaltLength..] == Encode(password)
  }

  /** Verification accepts the password that was hashed and nothing else, whatever the salt. */
  lemma VerifyHash(salt: Salt, p: string, q: string)
    ensures Verify(Hash(salt, p), q) <==> p == q
  {
    var h := Hash(salt, p);
    assert h[|Prefix| + SaltLength..] == Encode(p);
    if Encode(p) == Encode(q) {
      assert p == Encode(p)[1..];
    }
  }

  /** The stored hash is never the plaintext. */
  lemma HashIsNotPlaintext(salt: Salt, p: string)
    ensures Hash(salt, p) != p
  {
    assert |Hash(salt, p)| > |p|;
  }

  /** A string that a password verifies against is not that password. */
  lemma VerifiedIsNotPlaintext(h: string, p: string)
    requires Verify(h, p)
    ensures h != p
  {
    assert |h| == |Prefix| + SaltLength + |Encode(p)|;
  }
}
