/**
 * Shared vocabulary of the backend model: the error kinds the HTTP layer
 * distinguishes, a value-or-error result, and the shape of a record id.
 */
module Base {

  /** The exceptions the services raise, by kind. `Internal` stands for an
      exception the source does not map (an unmapped ORM error, a schema parse
      error, a TypeError), which the framework turns into a server fault. */
  datatype Error = BadRequest | NotFound | Conflict | Unauthorized | Forbidden | Internal

  datatype Option<+T> = None | Some(value: T) {
    function GetOr(default: T): T {
      match this
      case Some(v) => v
      case None => default
    }
  }

  datatype Result<+T> = Ok(value: T) | Err(error: Error)

  /** A guard or a check that either passes or raises. */
  datatype Outcome = Pass | Fail(error: Error)

  type Id = string

  predicate IsHexDigit(c: char) {
    ('0' <= c <= '9') || ('a' <= c <= 'f') || ('A' <= c <= 'F')
  }

  /** Record ids are UUIDs in their hyphenated 8-4-4-4-12 spelling; a string of
      another shape makes the database reject the query. */
  predicate ValidId(s: string) {
    && |s| == 36
    && (forall i :: 0 <= i < 36 && (i == 8 || i == 13 || i == 18 || i == 23) ==> s[i] == '-')
    && (forall i :: 0 <= i < 36 && i != 8 && i != 13 && i != 18 && i != 23 ==> IsHexDigit(s[i]))
  }
}
