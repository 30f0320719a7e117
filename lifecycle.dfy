/**
 * Properties that connect several parts: a token issued at login against the two guards,
 * an account made by signup against login, and the registration example from invite to
 * signup.
 */
module Lifecycle {

  import opened Optional
  import opened Http
  import opened Models
  import Hex
  import Bcrypt
  import Jwt
  import AuthHeader
  import InviteController
  import UserController
  import IsLoggedInMiddleware
  import IsAdminMiddleware

  /**
   * Sent back as `<scheme> <token>` within its five days, a login token passes the signed-in
   * guard, and passes the admin guard exactly when the account's role is 'admin' (403 otherwise).
   */
  lemma LoginTokenAdmitted(db: Db, signer: Jwt.Signer, hasher: Bcrypt.Hasher, email: string, password: string,
                           now: int, later: int, scheme: string)
    requires db.Valid() && Jwt.Sound(signer)
    requires UserController.Login(db, signer, hasher, email, password, now).Issued?
    requires now <= later < now + Jwt.ExpiresIn && ' ' !in scheme
    ensures var header := Some(scheme + " " + UserController.Login(db, signer, hasher, email, password, now).token);
            var verify := (t: string) => signer.verify(t, later);
            var role := db.users[FindUserByEmail(db.users, email).value].role;
            && IsLoggedInMiddleware.IsLoggedIn(header, verify) == Next
            && IsAdminMiddleware.IsAdmin(header, verify)
               == if role == AdminRole then Next else Deny(403, IsAdminMiddleware.NotAdminMessage)
  {
    var id := FindUserByEmail(db.users, email).value;
    var claims := Jwt.LoginClaims(email, db.users[id].role, now);
    var token := signer.sign(claims);
    assert UserController.Login(db, signer, hasher, email, password, now).token == token;
    AuthHeader.TokenAfterAnyScheme(scheme, token);
    assert signer.verify(token, later) == Jwt.Verified(claims);
  }

  /** From its expiry on, a login token is refused by both guards with the verifier's expiry message. */
  lemma ExpiredLoginTokenRefused(db: Db, signer: Jwt.Signer, hasher: Bcrypt.Hasher, email: string,
                                 password: string, now: int, later: int, scheme: string)
    requires db.Valid() && Jwt.Sound(signer)
    requires UserController.Login(db, signer, hasher, email, password, now).Issued?
    requires now + Jwt.ExpiresIn <= later && ' ' !in scheme
    ensures var header := Some(scheme + " " + UserController.Login(db, signer, hasher, email, password, now).token);
            var verify := (t: string) => signer.verify(t, later);
            && IsLoggedInMiddleware.IsLoggedIn(header, verify) == Deny(401, Jwt.ExpiredMessage)
            && IsAdminMiddleware.IsAdmin(header, verify) == Deny(401, Jwt.ExpiredMessage)
  {
    var id := FindUserByEmail(db.users, email).value;
    var token := signer.sign(Jwt.LoginClaims(email, db.users[id].role, now));
    assert UserController.Login(db, signer, hasher, email, password, now).token == token;
    AuthHeader.TokenAfterAnyScheme(scheme, token);
  }

  /**
   * The account signup creates logs in with the password it was given, as role 'user', and
   * refuses with the generic message every other password, as long as both passwords fit
   * bcrypt's 72-byte key.
   */
  lemma SignedUpAccountLogsIn(db: Db, signer: Jwt.Signer, hasher: Bcrypt.Hasher, invite: Invite, id: Id,
                              password: string, salt: string, other: string, now: int)
    requires db.Valid() && Bcrypt.Sound(hasher)
    requires id in db.users && db.users[id] == UserController.NewAccount(hasher, invite, password, salt)
    ensures UserController.Login(db, signer, hasher, invite.email, password, now)
            == Issued(200, signer.sign(Jwt.LoginClaims(invite.email, UserRole, now)))
    ensures other != password && Bcrypt.FitsKey(password) && Bcrypt.FitsKey(other) ==>
              UserController.Login(db, signer, hasher, invite.email, other, now)
              == Fail(400, UserController.IncorrectCredentialsMessage)
  {
    assert FindUserByEmail(db.users, invite.email) == Some(id);
  }

  /** Unknown email and wrong password are told apart by nothing in the reply. */
  lemma LoginFailuresIndistinguishable(db: Db, signer: Jwt.Signer, hasher: Bcrypt.Hasher,
                                       unknown: string, known: string, wrong: string, now: int)
    requires db.Valid() && FindUserByEmail(db.users, unknown).None?
    requires FindUserByEmail(db.users, known).Some?
    requires !hasher.compare(wrong, db.users[FindUserByEmail(db.users, known).value].password)
    ensures UserController.Login(db, signer, hasher, unknown, wrong, now)
            == UserController.Login(db, signer, hasher, known, wrong, now)
  {
  }

  /**
   * The registration example: invite an email, check the token (200), sign up with
   * "abc123" (201), check the token again (400); a second invite for the same email is
   * then refused because the account exists.
   */
  method RegistrationExample(hasher: Bcrypt.Hasher, appUrl: string, bytes: seq<Hex.byte>, inviteId: Id,
                             userId: Id, salt: string)
    returns (invited: Reply, before: Reply, signedUp: Reply, after: Reply, again: Reply)
    requires |bytes| == Hex.TokenBytes
    ensures invited == Ok(200) && before == Ok(200) && signedUp == Ok(201)
    ensures after == Fail(400, InviteController.InvalidTokenMessage)
    ensures again == Fail(400, InviteController.AlreadyRegisteredMessage)
  {
    var db := new Db();
    var email := "a@x.com";
    var mail: Option<Mail>;
    invited, mail := InviteController.CreateInvite(db, [], email, appUrl, bytes, inviteId, Delivered);
    var token := Hex.RandomToken(bytes);
    assert db.invites == map[inviteId := Invite(email, token)];
    before := InviteController.CheckToken(db, token);
    signedUp := UserController.SungUp(db, hasher, [], token, "abc123", salt, userId);
    after := InviteController.CheckToken(db, token);
    again, mail := InviteController.CreateInvite(db, [], email, appUrl, bytes, inviteId, Delivered);
  }

  /**
   * Two accounts, a@x.com and b@x.com; the first, signed in, asks for the email b@x.com with
   * its right password. The reply is 201, yet the unique index refused the save and the
   * account still has a@x.com. With the save awaited the same request answers 500.
   */
  method ChangeEmailLostWrite(now: int)
    returns (asWritten: Reply, emailAfter: string, awaited: Reply)
    ensures asWritten == Ok(201) && emailAfter == "a@x.com"
    ensures awaited == Fail(500, DuplicateKeyError("b@x.com"))
  {
    var hasher := Bcrypt.Truncating();
    var claims := Jwt.Claims("a@x.com", UserRole, now, now + Jwt.ExpiresIn);
    var signer := Jwt.Signer((c: Jwt.Claims) => "t", (t: string, at: int) => Jwt.Verified(claims));
    var db := new Db();
    db.users := map["u1" := User("a@x.com", "pw1abc", UserRole, None), "u2" := User("b@x.com", "pw2abc", UserRole, None)];
    assert signer.verify("t", now) == Jwt.Verified(claims);
    assert hasher.compare("pw1abc", "pw1abc");
    assert FindUserByEmail(db.users, "a@x.com") == Some("u1");
    assert db.users["u2"].email == "b@x.com";
    assert !EmailFree(db.users, "b@x.com", Some("u1"));
    asWritten := UserController.ChangeEmail(db, signer, hasher, [], "t", "pw1abc", "b@x.com", now);
    emailAfter := db.users["u1"].email;
    awaited := UserController.ChangeEmailAwaited(db, signer, hasher, [], "t", "pw1abc", "b@x.com", now);
  }
}
