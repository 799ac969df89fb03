/** Vocabulary shared by every part of the model: document identifiers,
    optional and fallible values, the HTTP status codes the handlers send,
    and the abstract password/token digest that stands in for bcrypt. */
module Common {

  /** A document identifier (a Mongo ObjectId), compared only by equality. */
  type Id = nat

  datatype Option<+T> = None | Some(value: T)

  datatype Result<+R, +E> = Ok(value: R) | Err(error: E)

  const OK: int := 200
  const BAD_REQUEST: int := 400
  const UNAUTHORIZED: int := 401
  const NOT_FOUND: int := 404
  const CONFLICT: int := 409
  const SERVER_ERROR: int := 500

  /** JavaScript truthiness of a request field that holds a string or
      nothing: present and non-empty. */
  predicate Truthy(s: Option<string>) {
    s.Some? && s.value != ""
  }

  /** A bcrypt digest. Salt and cost are abstracted away: the digest is
      identified with the secret it was computed from, so that comparing a
      plain text against a digest is an equality test. */
  datatype Digest = Digest(secret: string)

  function Hash(plain: string): Digest {
    Digest(plain)
  }

  /** `bcrypt.compare(plain, digest)`. */
  predicate Matches(plain: string, d: Digest) {
    Hash(plain) == d
  }
}
