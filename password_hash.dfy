/**
 * The password hashing primitive the user directory relies on (PBKDF2 with a
 * self-describing hash string). Its internals are not modelled: a hasher is a
 * triple of functions, and what the directory needs from them is stated as
 * predicates that lemmas and callers take as preconditions.
 */
module PasswordHash {
  import opened Wrappers

  /**
   * `hash(password, salt)` derives the stored hash string, or fails (None);
   * `parses(stored)` says whether a stored string is a well-formed hash string;
   * `verify(password, stored)` checks a password against a parsed hash string.
   */
  datatype Hasher = Hasher(
    hash: (string, string) -> Option<string>,
    parses: string -> bool,
    verify: (string, string) -> bool)

  /** Every hash the primitive produces parses and verifies its own password. */
  ghost predicate Sound(kdf: Hasher)
  {
    forall password, salt | kdf.hash(password, salt).Some? ::
      kdf.parses(kdf.hash(password, salt).value) &&
      kdf.verify(password, kdf.hash(password, salt).value)
  }

  /**
   * A hash produced for one password verifies no other password (collisions
   * of the key-derivation function are treated as impossible).
   */
  ghost predicate Binding(kdf: Hasher)
  {
    forall password, other, salt |
      kdf.hash(password, salt).Some? && kdf.verify(other, kdf.hash(password, salt).value) ::
      other == password
  }

  /**
   * A hasher that stores the password itself. It exists only to show that
   * Sound and Binding can hold together; it says nothing about secrecy.
   */
  function PlainHasher(): (kdf: Hasher)
    ensures Sound(kdf) && Binding(kdf)
  {
    Hasher((password: string, salt: string) => Some(password),
           (stored: string) => true,
           (password: string, stored: string) => password == stored)
  }
}
