/** The invitation handlers: check a registration token, invite an email, list and delete invites. */
module InviteController {

  import opened Optional
  import opened Http
  import opened Models
  import Hex
  import UserService

  const InvalidTokenMessage: string := "Token is invalid"
  const AlreadyInvitedMessage: string := "User with this email is already invited"
  const AlreadyRegisteredMessage: string := "User with this email already exist"
  const InviteNotFoundMessage: string := "Invite is not found"

  /** GET /invites/check-token/:token: 200 exactly when an invite carries the token, 400 otherwise. */
  function CheckToken(db: Db, token: string): (r: Reply)
    reads db
    requires db.Valid()
    ensures r == Ok(200) <==> exists id :: id in db.invites && db.invites[id].token == token
    ensures r == Ok(200) || r == Fail(400, InvalidTokenMessage)
  {
    if UserService.IsInviteExist(db, token) then Ok(200) else Fail(400, InvalidTokenMessage)
  }

  const RegistrationPath: string := "/registration/"

  /** The registration mail for an invite: to the invited address, with a link under the application's URL that ends in the token. */
  function InvitationMail(appUrl: string, email: string, token: string): (m: Mail)
    ensures m.to == email && m.subject == "Registration"
    ensures |m.link| == |appUrl| + |RegistrationPath| + |token|
    ensures m.link[..|appUrl|] == appUrl && m.link[|m.link| - |token|..] == token
  {
    Mail(email, "Registration", appUrl + RegistrationPath + token)
  }

  /**
   * POST /invites. After the validator's errors (402), the existing-invite check comes
   * first and the existing-account check second (both 400). Then a token is made from 20
   * random bytes and the invitation mail is sent BEFORE the invite is stored: when sending
   * fails the reply carries the mail error and no invite is added; otherwise exactly the
   * invite { email, token } is added.
   * `bytes` are the random bytes and `newId` the ObjectId the driver gives the new invite;
   * both are assumed not to collide with what is stored.
   */
  method CreateInvite(db: Db, errors: seq<string>, email: string, appUrl: string,
                      bytes: seq<Hex.byte>, newId: Id, delivery: Delivery)
    returns (r: Reply, sent: Option<Mail>)
    requires db.Valid() && |bytes| == Hex.TokenBytes && newId !in db.invites
    requires InviteTokenFree(db.invites, Hex.Encode(bytes))
    modifies db
    ensures db.Valid() && db.users == old(db.users)
    ensures errors != [] ==>
              r == Rejected(402, errors) && sent == None && db.invites == old(db.invites)
    ensures errors == [] && !InviteEmailFree(old(db.invites), email) ==>
              r == Fail(400, AlreadyInvitedMessage) && sent == None && db.invites == old(db.invites)
    ensures errors == [] && InviteEmailFree(old(db.invites), email) && !EmailFree(db.users, email, None) ==>
              r == Fail(400, AlreadyRegisteredMessage) && sent == None && db.invites == old(db.invites)
    ensures errors == [] && InviteEmailFree(old(db.invites), email) && EmailFree(db.users, email, None) ==>
              var token := Hex.RandomToken(bytes);
              && Hex.IsRandomToken(token)
              && sent == Some(InvitationMail(appUrl, email, token))
              && (delivery.Undelivered? ==> r == Fail(400, delivery.message) && db.invites == old(db.invites))
              && (delivery.Delivered? ==> r == Ok(200) && db.invites == old(db.invites)[newId := Invite(email, token)])
  {
    sent := None;
    if errors != [] {
      return Rejected(402, errors), sent;
    }
    if FindInviteByEmail(db.invites, email).Some? {
      return Fail(400, AlreadyInvitedMessage), sent;
    }
    if FindUserByEmail(db.users, email).Some? {
      return Fail(400, AlreadyRegisteredMessage), sent;
    }
    var token := Hex.RandomToken(bytes);
    sent := Some(InvitationMail(appUrl, email, token));
    if delivery.Undelivered? {
      return Fail(400, delivery.message), sent;
    }
    db.InsertInvite(newId, Invite(email, token));
    r := Ok(200);
  }

  /** What GET /invites returns: `results` and the invites projected on `_id` and `email`. */
  datatype InviteListing = InviteListing(results: nat, data: map<Id, string>)

  /** GET /invites: one entry per invite, holding its email and never its token. */
  function GetAllInvites(db: Db): (r: InviteListing)
    reads db
    ensures r.results == |db.invites| == |r.data|
    ensures r.data.Keys == db.invites.Keys
    ensures forall id :: id in r.data ==> r.data[id] == db.invites[id].email
  {
    var data := map id | id in db.invites :: db.invites[id].email;
    assert data.Keys == db.invites.Keys;
    InviteListing(|db.invites|, data)
  }

  /** DELETE /invites/:id: 201 and only that invite removed, or 404 and nothing changed. */
  method DeleteInvite(db: Db, id: Id) returns (r: Reply)
    requires db.Valid()
    modifies db
    ensures db.Valid() && db.users == old(db.users)
    ensures id in old(db.invites) ==> r == Ok(201) && db.invites == old(db.invites) - {id}
    ensures id !in old(db.invites) ==> r == Fail(404, InviteNotFoundMessage) && db.invites == old(db.invites)
  {
    if id in db.invites {
      db.RemoveInvite(id);
      r := Ok(201);
    } else {
      r := Fail(404, InviteNotFoundMessage);
    }
  }
}
