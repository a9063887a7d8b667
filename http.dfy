/** The HTTP side of the routes: the status codes they answer with and the
    request-field checks they declare through `express-validator`. */
module Http {
  import opened Text

  const Ok: int := 200
  const Created: int := 201
  const BadRequest: int := 400
  const Forbidden: int := 403
  const NotFound: int := 404
  const Conflict: int := 409
  const TooManyRequests: int := 429
  const ServerError: int := 500

  predicate IsHexDigit(c: char) {
    ('0' <= c <= '9') || ('a' <= c <= 'f') || ('A' <= c <= 'F')
  }

  /** `isUUID()`: five groups of 8, 4, 4, 4 and 12 hexadecimal digits, either
      case, separated by hyphens. */
  predicate IsUuid(s: string) {
    && |s| == 36
    && (forall i :: 0 <= i < 36 ==> (s[i] == '-' <==> i in {8, 13, 18, 23}))
    && (forall i :: 0 <= i < 36 && i !in {8, 13, 18, 23} ==> IsHexDigit(s[i]))
  }

  /** `trim().isLength({ min, max })`: the length after trimming, in characters. */
  predicate TrimmedLengthBetween(s: string, min: nat, max: nat) {
    min <= |Trim(s)| <= max
  }
}
