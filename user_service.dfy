/** `isInviteExist(token)`: whether an outstanding invite carries the token. */
module UserService {

  import opened Models

  /**
   * True exactly when some invite's token is `token`; the invites' emails play no part
   * (see `Models.FindInviteByTokenIgnoresEmails`). A boolean is returned, never the record,
   * and as a function of the store it cannot change it.
   */
  function IsInviteExist(db: Db, token: string): (r: bool)
    reads db
    requires db.Valid()
    ensures r <==> exists id :: id in db.invites && db.invites[id].token == token
  {
    FindInviteByToken(db.invites, token).Some?
  }
}
