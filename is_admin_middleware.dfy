/** The guard of the administrators' routes: the token must be present, verify, and carry the role 'admin'. */
module IsAdminMiddleware {

  import opened Optional
  import opened Http
  import opened Jwt
  import opened AuthHeader
  import Models
  import IsLoggedInMiddleware

  const UndefinedTokenMessage: string := "Access token is undefined"
  const NotAdminMessage: string := "Not enough access rights"

  /**
   * Presence first (401), then verification (401 with the verifier's message), then the
   * role (403), so a token that fails to verify can never earn a 403. The request goes on
   * exactly when all three checks pass.
   */
  function IsAdmin(header: Option<string>, verify: string -> Verdict): (r: GuardResult)
    ensures r == Next <==>
              && BearerToken(header).Some?
              && verify(BearerToken(header).value).Verified?
              && verify(BearerToken(header).value).claims.role == Models.AdminRole
    ensures BearerToken(header).None? ==> r == Deny(401, UndefinedTokenMessage)
    ensures BearerToken(header).Some? && verify(BearerToken(header).value).Invalid? ==>
              r == Deny(401, verify(BearerToken(header).value).message)
    ensures BearerToken(header).Some? && verify(BearerToken(header).value).Verified?
            && verify(BearerToken(header).value).claims.role != Models.AdminRole ==>
              r == Deny(403, NotAdminMessage)
    ensures r.Deny? && r.status == 403 ==>
              && BearerToken(header).Some? && verify(BearerToken(header).value).Verified?
              && r.message == NotAdminMessage
  {
    match BearerToken(header)
    case None => Deny(401, UndefinedTokenMessage)
    case Some(authToken) =>
      match verify(authToken)
      case Invalid(message) => Deny(401, message)
      case Verified(claims) =>
        if claims.role != Models.AdminRole then Deny(403, NotAdminMessage) else Next
  }

  /** Whatever the admin guard lets through, the signed-in guard lets through too. */
  lemma AdminIsLoggedIn(header: Option<string>, verify: string -> Verdict)
    requires IsAdmin(header, verify) == Next
    ensures IsLoggedInMiddleware.IsLoggedIn(header, verify) == Next
  {
  }

  /** Where the signed-in guard refuses, the admin guard refuses the same way. */
  lemma AdminRefusesWhatLoggedInRefuses(header: Option<string>, verify: string -> Verdict)
    requires IsLoggedInMiddleware.IsLoggedIn(header, verify) != Next
    ensures IsAdmin(header, verify) == IsLoggedInMiddleware.IsLoggedIn(header, verify)
  {
  }
}
