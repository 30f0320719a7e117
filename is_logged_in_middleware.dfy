/** The guard of the routes that need a signed-in caller: the token must be present and verify. */
module IsLoggedInMiddleware {

  import opened Optional
  import opened Http
  import opened Jwt
  import opened AuthHeader

  const UndefinedTokenMessage: string := "Access token is undefined"

  /**
   * `verify` is `jwt.verify` under the server's secret at the time of the request. The
   * request goes on exactly when the header has a token and it verifies; the claims,
   * the role among them, are not looked at. Every refusal is a 401.
   */
  function IsLoggedIn(header: Option<string>, verify: string -> Verdict): (r: GuardResult)
    ensures r == Next <==> BearerToken(header).Some? && verify(BearerToken(header).value).Verified?
    ensures BearerToken(header).None? ==> r == Deny(401, UndefinedTokenMessage)
    ensures BearerToken(header).Some? && verify(BearerToken(header).value).Invalid? ==>
              r == Deny(401, verify(BearerToken(header).value).message)
  {
    match BearerToken(header)
    case None => Deny(401, UndefinedTokenMessage)
    case Some(authToken) =>
      match verify(authToken)
      case Invalid(message) => Deny(401, message)
      case Verified(_) => Next
  }

  /** The guard keeps no state: two verifiers that agree on the header's token give the same outcome. */
  lemma IsLoggedInStateless(header: Option<string>, v1: string -> Verdict, v2: string -> Verdict)
    requires BearerToken(header).Some? ==> v1(BearerToken(header).value) == v2(BearerToken(header).value)
    ensures IsLoggedIn(header, v1) == IsLoggedIn(header, v2)
  {
  }
}
