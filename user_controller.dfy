/**
 * The account handlers: signup by invite, password reset by a stored token, password, email
 * and role changes, login, listing and deletion. Each handler first answers with the
 * validator's errors when the route's checks failed (`errors` is `validationResult(request)`).
 */
module UserController {

  import opened Optional
  import opened Http
  import opened Models
  import Hex
  import Bcrypt
  import Jwt
  import UserService

  const InvalidTokenMessage: string := "Token is invalid"
  const IncorrectPasswordMessage: string := "Incorrect password"
  const UserNotFoundMessage: string := "User not found"
  const UserIsNotFoundMessage: string := "User is not found"
  const EmailNotFoundMessage: string := "User with this email not found"
  const ResetFailedMessage: string := "Error while reset password"
  const IncorrectCredentialsMessage: string := "Incorrect username or password"
  /**
   * The TypeError `user.password` raises when `findOne` found no user, in V8's wording from
   * Node 16.9 on (older versions say "Cannot read property 'password' of null").
   */
  const NoUserPasswordMessage: string := "Cannot read properties of null (reading 'password')"
  /** The reset link is not built from the configured application URL. */
  const ResetLinkBase: string := "http://localhost:50946/reset-password/"

  /** The record signup creates for an invite. */
  function NewAccount(hasher: Bcrypt.Hasher, invite: Invite, password: string, salt: string): (u: User)
    ensures u.email == invite.email && u.role == UserRole && u.resetToken == None
    ensures u.password == hasher.hash(password, Bcrypt.SaltRounds, salt)
  {
    User(invite.email, hasher.hash(password, Bcrypt.SaltRounds, salt), UserRole, None)
  }

  /**
   * POST /users/signup/:token. An unknown token answers 400 'Token is invalid' and changes
   * nothing. Otherwise the account { invite's email, hash of the password, role 'user' } is
   * created and only then the invite deleted: when the unique email index refuses the
   * account, the reply carries the index error and the invite stays.
   * `salt` is bcrypt's random salt and `newId` the ObjectId of the new account.
   */
  method SungUp(db: Db, hasher: Bcrypt.Hasher, errors: seq<string>, token: string, password: string,
                salt: string, newId: Id)
    returns (r: Reply)
    requires db.Valid() && newId !in db.users
    modifies db
    ensures db.Valid()
    ensures errors != [] ==>
              r == Rejected(400, errors) && db.users == old(db.users) && db.invites == old(db.invites)
    ensures errors == [] && InviteTokenFree(old(db.invites), token) ==>
              r == Fail(400, InvalidTokenMessage) && db.users == old(db.users) && db.invites == old(db.invites)
    ensures errors == [] && !InviteTokenFree(old(db.invites), token) ==>
              var k := FindInviteByToken(old(db.invites), token).value;
              var invite := old(db.invites)[k];
              if EmailFree(old(db.users), invite.email, None) then
                && r == Ok(201)
                && db.users == old(db.users)[newId := NewAccount(hasher, invite, password, salt)]
                && db.invites == old(db.invites) - {k}
              else
                && r == Fail(400, DuplicateKeyError(invite.email))
                && db.users == old(db.users) && db.invites == old(db.invites)
    ensures r == Ok(201) ==> !UserService.IsInviteExist(db, token)
  {
    if errors != [] {
      return Rejected(400, errors);
    }
    var found := FindInviteByToken(db.invites, token);
    if found.None? {
      return Fail(400, InvalidTokenMessage);
    }
    var invite := db.invites[found.value];
    var err := db.InsertUser(newId, NewAccount(hasher, invite, password, salt));
    match err {
      case Some(message) =>
        r := Fail(400, message);
      case None =>
        db.RemoveInvite(found.value);
        r := Ok(201);
    }
  }

  /** GET /users/check-token/:token: 200 exactly when some account carries the reset token, 400 otherwise. */
  function CheckResetPasswordToken(db: Db, token: string): (r: Reply)
    reads db
    requires db.Valid()
    ensures r == Ok(200) <==> exists id :: id in db.users && db.users[id].resetToken == Some(token)
    ensures r == Ok(200) || r == Fail(400, InvalidTokenMessage)
  {
    if FindUserByResetToken(db.users, token).Some? then Ok(200) else Fail(400, InvalidTokenMessage)
  }

  /**
   * POST /users/reset-password/:token. An unknown token answers 400 and changes nothing;
   * otherwise that account's password becomes the hash of the new one and its reset token
   * is cleared, so the token no longer passes `CheckResetPasswordToken`.
   */
  method ResetPassword(db: Db, hasher: Bcrypt.Hasher, errors: seq<string>, token: string, password: string,
                       salt: string)
    returns (r: Reply)
    requires db.Valid()
    modifies db
    ensures db.Valid() && db.invites == old(db.invites)
    ensures errors != [] ==> r == Rejected(400, errors) && db.users == old(db.users)
    ensures errors == [] && FindUserByResetToken(old(db.users), token).None? ==>
              r == Fail(400, InvalidTokenMessage) && db.users == old(db.users)
    ensures errors == [] && FindUserByResetToken(old(db.users), token).Some? ==>
              var id := FindUserByResetToken(old(db.users), token).value;
              && r == Ok(201)
              && db.users == old(db.users)[id := old(db.users)[id].(
                                password := hasher.hash(password, Bcrypt.SaltRounds, salt), resetToken := None)]
    ensures r == Ok(201) ==> CheckResetPasswordToken(db, token) == Fail(400, InvalidTokenMessage)
  {
    if errors != [] {
      return Rejected(400, errors);
    }
    var found := FindUserByResetToken(db.users, token);
    if found.None? {
      return Fail(400, InvalidTokenMessage);
    }
    var id := found.value;
    var user := db.users[id].(password := hasher.hash(password, Bcrypt.SaltRounds, salt), resetToken := None);
    // The email is unchanged, so the unique index cannot refuse this save and the
    // handler's catch branch is never taken.
    var _ := db.SaveUser(id, user);
    r := Ok(201);
  }

  /**
   * POST /users/change-password. The bearer token is verified (its error answers 401); the
   * account is the one holding the token's email claim; when there is none, reading its
   * password fails (401). A wrong current password answers 401 'Incorrect password' and
   * changes nothing; otherwise only that account's password changes, to the hash of the new one.
   */
  method ChangePassword(db: Db, signer: Jwt.Signer, hasher: Bcrypt.Hasher, errors: seq<string>,
                        authToken: string, password: string, newPassword: string, salt: string, now: int)
    returns (r: Reply)
    requires db.Valid()
    modifies db
    ensures db.Valid() && db.invites == old(db.invites)
    ensures r != Ok(201) ==> db.users == old(db.users)
    ensures errors != [] ==> r == Rejected(400, errors)
    ensures errors == [] && signer.verify(authToken, now).Invalid? ==>
              r == Fail(401, signer.verify(authToken, now).message)
    ensures errors == [] && signer.verify(authToken, now).Verified? ==>
              var found := FindUserByEmail(old(db.users), signer.verify(authToken, now).claims.email);
              && (found.None? ==> r == Fail(401, NoUserPasswordMessage))
              && (found.Some? && !hasher.compare(password, old(db.users)[found.value].password) ==>
                    r == Fail(401, IncorrectPasswordMessage))
              && (found.Some? && hasher.compare(password, old(db.users)[found.value].password) ==>
                    && r == Ok(201)
                    && db.users == old(db.users)[found.value := old(db.users)[found.value].(
                                      password := hasher.hash(newPassword, Bcrypt.SaltRounds, salt))])
  {
    if errors != [] {
      return Rejected(400, errors);
    }
    var verdict := signer.verify(authToken, now);
    if verdict.Invalid? {
      return Fail(401, verdict.message);
    }
    var found := FindUserByEmail(db.users, verdict.claims.email);
    if found.None? {
      return Fail(401, NoUserPasswordMessage);
    }
    var id := found.value;
    if !hasher.compare(password, db.users[id].password) {
      return Fail(401, IncorrectPasswordMessage);
    }
    var user := db.users[id].(password := hasher.hash(newPassword, Bcrypt.SaltRounds, salt));
    var _ := db.SaveUser(id, user);
    r := Ok(201);
  }

  /**
   * POST /users/change-email. Verification errors, a missing account ('User not found') and
   * a wrong password ('Incorrect password') all answer 500 and change nothing. Otherwise the
   * reply is 201 before the save has run, with no check that the new email is free:
   * the save is refused by the unique index when another account has that email, so the
   * store is then left as it was although the reply reports success.
   */
  method ChangeEmail(db: Db, signer: Jwt.Signer, hasher: Bcrypt.Hasher, errors: seq<string>,
                     authToken: string, password: string, newEmail: string, now: int)
    returns (r: Reply)
    requires db.Valid()
    modifies db
    ensures db.Valid() && db.invites == old(db.invites)
    ensures r != Ok(201) ==> db.users == old(db.users)
    ensures errors != [] ==> r == Rejected(400, errors)
    ensures errors == [] && signer.verify(authToken, now).Invalid? ==>
              r == Fail(500, signer.verify(authToken, now).message)
    ensures errors == [] && signer.verify(authToken, now).Verified? ==>
              var found := FindUserByEmail(old(db.users), signer.verify(authToken, now).claims.email);
              && (found.None? ==> r == Fail(500, UserNotFoundMessage))
              && (found.Some? && !hasher.compare(password, old(db.users)[found.value].password) ==>
                    r == Fail(500, IncorrectPasswordMessage))
              && (found.Some? && hasher.compare(password, old(db.users)[found.value].password) ==>
                    && r == Ok(201)
                    && db.users == if EmailFree(old(db.users), newEmail, found) then
                                     old(db.users)[found.value := old(db.users)[found.value].(email := newEmail)]
                                   else old(db.users))
  {
    if errors != [] {
      return Rejected(400, errors);
    }
    var verdict := signer.verify(authToken, now);
    if verdict.Invalid? {
      return Fail(500, verdict.message);
    }
    var found := FindUserByEmail(db.users, verdict.claims.email);
    if found.None? {
      return Fail(500, UserNotFoundMessage);
    }
    var id := found.value;
    if !hasher.compare(password, db.users[id].password) {
      return Fail(500, IncorrectPasswordMessage);
    }
    var user := db.users[id].(email := newEmail);
    var _ := db.SaveUser(id, user);
    r := Ok(201);
  }

  /**
   * `ChangeEmail` as its try/catch evidently means it: the save is awaited, so a save the
   * unique index refuses answers 500 with the index error instead of reporting success.
   * A 201 then always means the account now has the new email.
   */
  method ChangeEmailAwaited(db: Db, signer: Jwt.Signer, hasher: Bcrypt.Hasher, errors: seq<string>,
                            authToken: string, password: string, newEmail: string, now: int)
    returns (r: Reply)
    requires db.Valid()
    modifies db
    ensures db.Valid() && db.invites == old(db.invites)
    ensures r != Ok(201) ==> db.users == old(db.users)
    ensures errors != [] ==> r == Rejected(400, errors)
    ensures errors == [] && signer.verify(authToken, now).Invalid? ==>
              r == Fail(500, signer.verify(authToken, now).message)
    ensures errors == [] && signer.verify(authToken, now).Verified? ==>
              var found := FindUserByEmail(old(db.users), signer.verify(authToken, now).claims.email);
              && (found.None? ==> r == Fail(500, UserNotFoundMessage))
              && (found.Some? && !hasher.compare(password, old(db.users)[found.value].password) ==>
                    r == Fail(500, IncorrectPasswordMessage))
              && (found.Some? && hasher.compare(password, old(db.users)[found.value].password) ==>
                    if EmailFree(old(db.users), newEmail, found) then
                      && r == Ok(201)
                      && db.users == old(db.users)[found.value := old(db.users)[found.value].(email := newEmail)]
                    else r == Fail(500, DuplicateKeyError(newEmail)))
    ensures r == Ok(201) ==>
              db.users.Keys == old(db.users).Keys && exists id :: id in db.users && db.users[id].email == newEmail
  {
    if errors != [] {
      return Rejected(400, errors);
    }
    var verdict := signer.verify(authToken, now);
    if verdict.Invalid? {
      return Fail(500, verdict.message);
    }
    var found := FindUserByEmail(db.users, verdict.claims.email);
    if found.None? {
      return Fail(500, UserNotFoundMessage);
    }
    var id := found.value;
    if !hasher.compare(password, db.users[id].password) {
      return Fail(500, IncorrectPasswordMessage);
    }
    var user := db.users[id].(email := newEmail);
    var err := db.SaveUser(id, user);
    match err {
      case Some(message) => r := Fail(500, message);
      case None =>
        assert db.users[id].email == newEmail;
        r := Ok(201);
    }
  }

  /** PUT /users/change-role/:id: an unknown id answers 500 'User not found'; otherwise only the role changes. */
  method ChangeRole(db: Db, errors: seq<string>, id: Id, role: string) returns (r: Reply)
    requires db.Valid()
    modifies db
    ensures db.Valid() && db.invites == old(db.invites)
    ensures errors != [] ==> r == Rejected(400, errors) && db.users == old(db.users)
    ensures errors == [] && id !in old(db.users) ==> r == Fail(500, UserNotFoundMessage) && db.users == old(db.users)
    ensures errors == [] && id in old(db.users) ==>
              r == Ok(201) && db.users == old(db.users)[id := old(db.users)[id].(role := role)]
  {
    if errors != [] {
      return Rejected(400, errors);
    }
    if id !in db.users {
      return Fail(500, UserNotFoundMessage);
    }
    var user := db.users[id].(role := role);
    var _ := db.SaveUser(id, user);
    r := Ok(201);
  }

  /** The reset mail: to the account's address, with a link that ends in the token. */
  function ResetMail(email: string, token: string): (m: Mail)
    ensures m.to == email && m.subject == "Reset password"
    ensures |m.link| == |ResetLinkBase| + |token|
    ensures m.link[..|ResetLinkBase|] == ResetLinkBase && m.link[|ResetLinkBase|..] == token
  {
    Mail(email, "Reset password", ResetLinkBase + token)
  }

  /**
   * POST /users/forgot-password. An unknown email answers 400 and changes nothing. Otherwise
   * a token made from 20 random bytes is stored on that account only, and the reset mail is
   * sent; when sending fails the reply is 400 but the token stays stored.
   * `bytes` are the random bytes, assumed to collide with no stored reset token.
   */
  method ForgotPassword(db: Db, errors: seq<string>, email: string, bytes: seq<Hex.byte>, delivery: Delivery)
    returns (r: Reply, sent: Option<Mail>)
    requires db.Valid() && |bytes| == Hex.TokenBytes
    requires forall j :: j in db.users ==> db.users[j].resetToken != Some(Hex.Encode(bytes))
    modifies db
    ensures db.Valid() && db.invites == old(db.invites)
    ensures errors != [] ==> r == Rejected(400, errors) && sent == None && db.users == old(db.users)
    ensures errors == [] && FindUserByEmail(old(db.users), email).None? ==>
              r == Fail(400, EmailNotFoundMessage) && sent == None && db.users == old(db.users)
    ensures errors == [] && FindUserByEmail(old(db.users), email).Some? ==>
              var id := FindUserByEmail(old(db.users), email).value;
              var token := Hex.RandomToken(bytes);
              && Hex.IsRandomToken(token)
              && db.users == old(db.users)[id := old(db.users)[id].(resetToken := Some(token))]
              && sent == Some(ResetMail(email, token))
              && r == if delivery.Delivered? then Ok(201) else Fail(400, ResetFailedMessage)
  {
    sent := None;
    if errors != [] {
      return Rejected(400, errors), sent;
    }
    var found := FindUserByEmail(db.users, email);
    if found.None? {
      return Fail(400, EmailNotFoundMessage), sent;
    }
    var id := found.value;
    var token := Hex.RandomToken(bytes);
    var user := db.users[id].(resetToken := Some(token));
    var _ := db.SaveUser(id, user);
    sent := Some(ResetMail(email, token));
    r := if delivery.Delivered? then Ok(201) else Fail(400, ResetFailedMessage);
  }

  /**
   * POST /users/login. With the account holding `email` and a password its hash accepts,
   * the reply is 200 with a token signed over { email, the account's role } for five days.
   * Every other case, an unknown email as much as a wrong password, gives the same 400
   * 'Incorrect username or password'. Login reads the store and never changes it.
   */
  function Login(db: Db, signer: Jwt.Signer, hasher: Bcrypt.Hasher, email: string, password: string, now: int)
    : (r: Reply)
    reads db
    requires db.Valid()
    ensures r.Issued? <==>
              exists id :: id in db.users && db.users[id].email == email && hasher.compare(password, db.users[id].password)
    ensures r.Issued? ==>
              exists id :: id in db.users && db.users[id].email == email &&
                           r == Issued(200, signer.sign(Jwt.LoginClaims(email, db.users[id].role, now)))
    ensures !r.Issued? ==> r == Fail(400, IncorrectCredentialsMessage)
  {
    match FindUserByEmail(db.users, email)
    case None => Fail(400, IncorrectCredentialsMessage)
    case Some(id) =>
      var user := db.users[id];
      var jwtToken := signer.sign(Jwt.LoginClaims(email, user.role, now));
      if hasher.compare(password, user.password) then Issued(200, jwtToken)
      else Fail(400, IncorrectCredentialsMessage)
  }

  /** An entry of GET /users: `_id`, `email` and `role`, never the hash or the reset token. */
  datatype UserView = UserView(email: string, role: string)

  datatype UserListing = UserListing(results: nat, data: map<Id, UserView>)

  /** GET /users: one entry per account. */
  function GetAllUsers(db: Db): (r: UserListing)
    reads db
    ensures r.results == |db.users| == |r.data|
    ensures r.data.Keys == db.users.Keys
    ensures forall id :: id in r.data ==> r.data[id] == UserView(db.users[id].email, db.users[id].role)
  {
    var data := map id | id in db.users :: UserView(db.users[id].email, db.users[id].role);
    assert data.Keys == db.users.Keys;
    UserListing(|db.users|, data)
  }

  /** DELETE /users/:id: 201 and only that account removed, or 404 'User is not found' and nothing changed. */
  method DeleteUser(db: Db, id: Id) returns (r: Reply)
    requires db.Valid()
    modifies db
    ensures db.Valid() && db.invites == old(db.invites)
    ensures id in old(db.users) ==> r == Ok(201) && db.users == old(db.users) - {id}
    ensures id !in old(db.users) ==> r == Fail(404, UserIsNotFoundMessage) && db.users == old(db.users)
  {
    if id in db.users {
      db.RemoveUser(id);
      r := Ok(201);
    } else {
      r := Fail(404, UserIsNotFoundMessage);
    }
  }
}
