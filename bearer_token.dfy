/**
 * The `BearerAuthToken` parameter decorator: the raw token of an
 * `authorization` header of the form `Bearer <token>`.
 */
module BearerToken {
  import opened Base
  import opened Text

  /** The request's `authorization` header: missing, not a string, or text. */
  datatype Header = Absent | NonString | Text(value: string)

  const Prefix := "Bearer "

  /** The header's value with the first occurrence of the (case-sensitive)
      prefix replaced by nothing, when it starts with the prefix; BadRequest
      otherwise. */
  function BearerAuthToken(h: Header): (r: Result<string>)
    ensures r.Err? ==> r.error == BadRequest
  {
    if h.Text? && StartsWith(h.value, Prefix) then Ok(ReplaceFirst(h.value, Prefix, ""))
    else Err(BadRequest)
  }

  /** Accepted exactly when the header is text starting with the prefix, and
      then the token is the header without its first 7 characters. */
  lemma BearerSpec(h: Header)
    ensures BearerAuthToken(h).Ok? <==> h.Text? && |h.value| >= 7 && h.value[..7] == "Bearer "
    ensures BearerAuthToken(h).Ok? ==> BearerAuthToken(h).value == h.value[7..]
  {
    if h.Text? && StartsWith(h.value, Prefix) {
      ReplacePrefix(h.value, Prefix);
    }
  }

  /** The round trip: `Bearer ` followed by any token yields that token, even
      when the token itself contains the prefix; and every accepted header is
      the prefix followed by the token it yields. */
  lemma RoundTrip(t: string, h: Header)
    ensures BearerAuthToken(Text(Prefix + t)) == Ok(t)
    ensures BearerAuthToken(h).Ok? ==> h == Text(Prefix + BearerAuthToken(h).value)
  {
    assert (Prefix + t)[..7] == Prefix;
    assert (Prefix + t)[7..] == t;
    BearerSpec(Text(Prefix + t));
    BearerSpec(h);
    if BearerAuthToken(h).Ok? {
      assert h.value == h.value[..7] + h.value[7..];
    }
  }

  /** A header that is missing, not a string, or without the exact prefix
      (in particular a lower-case `bearer `) is refused. */
  lemma Refused(t: string)
    ensures BearerAuthToken(Absent) == Err(BadRequest)
    ensures BearerAuthToken(NonString) == Err(BadRequest)
    ensures BearerAuthToken(Text("bearer " + t)) == Err(BadRequest)
  {
    BearerSpec(Text("bearer " + t));
    assert ("bearer " + t)[0] == 'b';
  }
}
