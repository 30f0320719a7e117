/**
 * The password hasher (bcryptjs), kept abstract. `hash` takes the password, the cost factor
 * and the random salt; `compare` checks a candidate password against a stored hash. What the
 * model relies on is stated once, as the predicate `Sound`.
 */
module Bcrypt {

  /** Both handlers that hash call `bcrypt.hash(password, 12)`. */
  const SaltRounds: nat := 12

  /** bcrypt keys its cipher on at most 72 bytes; whatever follows them is ignored. */
  const KeyBytes: nat := 72

  datatype Hasher = Hasher(hash: (string, nat, string) -> string, compare: (string, string) -> bool)

  /** The number of bytes of a character's UTF-8 encoding. */
  function CharBytes(c: char): nat {
    if c as int < 0x80 then 1 else if c as int < 0x800 then 2 else if c as int < 0x10000 then 3 else 4
  }

  /** The number of bytes of a string's UTF-8 encoding, which is what bcryptjs keys on. */
  function Utf8Length(s: string): (n: nat)
    ensures |s| <= n <= 4 * |s|
  {
    if s == [] then 0 else CharBytes(s[0]) + Utf8Length(s[1..])
  }

  /**
   * A password bcrypt keys on in full: its bytes and the NUL terminator bcryptjs appends
   * for `$2a$`/`$2b$` hashes fit the 72 key bytes, and it holds no NUL of its own that
   * could pass for the terminator.
   */
  predicate FitsKey(p: string) {
    Utf8Length(p) < KeyBytes && '\0' !in p
  }

  /**
   * A hash accepts the password it was made from; of two passwords bcrypt keys on in full,
   * the hash of one never accepts the other. The second half idealises bcrypt as free of
   * collisions: its 184-bit digest has collisions by counting, but none is known to be
   * findable. Passwords that agree on their first 72 bytes are not told apart, and nothing
   * here says they are.
   */
  ghost predicate Sound(h: Hasher) {
    && (forall p, cost, salt :: h.compare(p, h.hash(p, cost, salt)))
    && (forall p, q, cost, salt :: p != q && FitsKey(p) && FitsKey(q) ==> !h.compare(q, h.hash(p, cost, salt)))
  }

  /** The first `KeyBytes` characters of a password. */
  function Truncate(p: string): (t: string)
    ensures |t| <= |p| && |t| <= KeyBytes && t == p[..|t|]
    ensures |p| <= KeyBytes ==> t == p
  {
    if |p| <= KeyBytes then p else p[..KeyBytes]
  }

  /**
   * A hasher that keeps the first 72 characters of the password: not one-way, and like
   * bcrypt blind to what follows the key, but a witness that `Sound` can be met.
   */
  function Truncating(): (h: Hasher)
    ensures Sound(h)
  {
    Hasher((p: string, cost: nat, salt: string) => Truncate(p), (q: string, stored: string) => Truncate(q) == stored)
  }

  /** The truncating witness accepts a password that differs from the hashed one only past the key. */
  lemma TruncatingIgnoresTail(key: string, a: string, b: string)
    requires |key| == KeyBytes
    ensures Truncating().compare(key + b, Truncating().hash(key + a, SaltRounds, ""))
  {
    assert (key + a)[..KeyBytes] == key;
    assert (key + b)[..KeyBytes] == key;
  }
}
