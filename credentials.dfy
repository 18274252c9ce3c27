/**
 * The password credential, as bcryptjs provides it to the server
 * (server/server.js:89-91 and 108). The digest is a value that remembers its
 * salt and what it was computed from: the model keeps the relation between a
 * plaintext and its digest and leaves out the one-way, costly function.
 */
module Credentials {

  import opened Wrappers
  import Js
  import Text

  /** The cost factor signup asks for (server/server.js:89). */
  const SaltRounds: nat := 10

  /** A salt: its cost factor and the random bits it was drawn with. */
  datatype Salt = Salt(rounds: nat, nonce: nat)

  /** A bcrypt digest. It is a type of its own, so no plaintext can stand in for one. */
  datatype Digest = Digest(salt: Salt, plain: string)

  /** `bcrypt.genSalt(rounds)`; the randomness is the parameter `nonce`. */
  function GenSalt(rounds: nat, nonce: nat): (s: Salt)
    ensures s.rounds == rounds
  {
    Salt(rounds, nonce)
  }

  /** `bcrypt.hash(password, salt)`. */
  function Hash(password: string, salt: Salt): (d: Digest)
    ensures d.salt == salt
  {
    Digest(salt, password)
  }

  /**
   * `bcrypt.compare(password, digest)` as seen by its callback's `isMatch`:
   * a missing digest makes bcryptjs report an error and leave `isMatch`
   * undefined, which the caller reads as a mismatch. A stored digest
   * matches exactly when hashing the attempt with that digest's own salt
   * reproduces it.
   */
  function Compare(password: string, digest: Option<Digest>): (r: bool)
    ensures r ==> digest.Some?
    ensures digest.Some? ==> (r <==> digest.value == Hash(password, digest.value.salt))
  {
    digest.Some? && digest.value.plain == password
  }

  /**
   * `bcrypt.getSalt(hash)`: reads the salt back out of an existing digest,
   * given as the 60-character string bcrypt produces, and throws otherwise.
   * The failure carries the message of the thrown error.
   */
  function GetSalt(hash: Js.Value): (r: Result<string, string>)
    ensures r.Success? <==> hash.Str? && |hash.s| == 60
  {
    match hash
    case Str(s) =>
      if |s| == 60 then Success(s[..29])
      else Failure("Illegal hash length: " + Text.Decimal(|s|) + " != 60")
    case _ => Failure("Illegal arguments: " + Js.TypeOf(hash))
  }

  /** Given a cost factor instead of a digest, `getSalt` throws. */
  lemma GetSaltRejectsRounds(rounds: nat)
    ensures GetSalt(Js.Number(rounds)) == Failure("Illegal arguments: number")
  {
    assert "Illegal arguments: " + "number" == "Illegal arguments: number";
  }

  /** A digest verifies exactly the plaintext it was computed from. */
  lemma CompareHash(password: string, attempt: string, salt: Salt)
    ensures Compare(attempt, Some(Hash(password, salt))) <==> attempt == password
  {
  }

  /** Hashing one password with two salts gives two digests. */
  lemma HashSalted(password: string, s1: Salt, s2: Salt)
    ensures Hash(password, s1) == Hash(password, s2) <==> s1 == s2
  {
  }
}
