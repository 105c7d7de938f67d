/**
 * The request authentication both edge functions open with
 * (supabase/functions/parse-gmail/index.ts and
 * supabase/functions/fetch-gmail/index.ts): the `Authorization` header
 * must be present, its first `"Bearer "` is removed, and the rest must
 * name a user. `getUser` is the auth service's lookup of a token.
 */
module EdgeAuth {
  import opened Wrappers
  import opened Records
  import opened Text

  const BEARER := "Bearer "
  const MISSING_AUTH_MESSAGE := "Missing authorization header"
  const UNAUTHORIZED_MESSAGE := "Unauthorized"
  const UNKNOWN_ERROR_MESSAGE := "Unknown error"

  /** `authHeader.replace("Bearer ", "")`: the first occurrence is removed, wherever it is. */
  function BearerToken(header: string): string
  {
    ReplaceFirst(header, BEARER, "")
  }

  /** A header of the form `Bearer <t>` yields `<t>`. */
  lemma BearerTokenOfPrefixed(t: string)
    ensures BearerToken(BEARER + t) == t
  {
    assert OccursAt(BEARER + t, BEARER, 0) by {
      assert (BEARER + t)[0..|BEARER|] == BEARER;
    }
    assert (BEARER + t)[|BEARER|..] == t;
  }

  /**
   * The user the request acts for: a missing or empty header and a token
   * that names no user (or a user with an empty id) are refused.
   */
  function Authenticate(authorization: Option<string>, getUser: string -> Option<string>): (r: Result<string, Raised>)
    ensures !Truthy(authorization) ==> r == Err(ErrorValue(MISSING_AUTH_MESSAGE))
    ensures r.Ok? ==> (r.value != "" && authorization.Some? && getUser(BearerToken(authorization.value)) == Some(r.value))
    ensures r.Err? ==> r.error == ErrorValue(MISSING_AUTH_MESSAGE) || r.error == ErrorValue(UNAUTHORIZED_MESSAGE)
    ensures Truthy(authorization) && Truthy(getUser(BearerToken(authorization.value)))
            ==> r == Ok(getUser(BearerToken(authorization.value)).value)
    ensures Truthy(authorization) && !Truthy(getUser(BearerToken(authorization.value)))
            ==> r == Err(ErrorValue(UNAUTHORIZED_MESSAGE))
  {
    if !Truthy(authorization) then Err(ErrorValue(MISSING_AUTH_MESSAGE))
    else
      var user := getUser(BearerToken(authorization.value));
      if Truthy(user) then Ok(user.value) else Err(ErrorValue(UNAUTHORIZED_MESSAGE))
  }
}
