/**
 * The two Mongoose collections as one store object: invites (`email`, `token`) and users
 * (`email`, `password` hash, `role`, `reset_password_token`), keyed by their ObjectId. The
 * unique index on the users' email is enforced here, by the two writes that can break it.
 */
module Models {

  import opened Optional

  /** An ObjectId. New ones come from the driver and are passed in. */
  type Id = string

  const UserRole: string := "user"
  const AdminRole: string := "admin"

  datatype Invite = Invite(email: string, token: string)

  datatype User = User(email: string, password: string, role: string, resetToken: Option<string>)

  const DuplicateKeyPrefix: string := "E11000 duplicate key error collection: express-api-kit.users index: email_1 dup key: { email: \""
  const DuplicateKeySuffix: string := "\" }"

  /** The text of the error a write that violates the unique email index fails with. */
  function DuplicateKeyError(email: string): string {
    DuplicateKeyPrefix + email + DuplicateKeySuffix
  }

  ghost predicate UniqueUserEmails(users: map<Id, User>) {
    forall i, j :: i in users && j in users && users[i].email == users[j].email ==> i == j
  }

  ghost predicate UniqueResetTokens(users: map<Id, User>) {
    forall i, j :: i in users && j in users && users[i].resetToken.Some? && users[i].resetToken == users[j].resetToken ==> i == j
  }

  ghost predicate UniqueInviteEmails(invites: map<Id, Invite>) {
    forall i, j :: i in invites && j in invites && invites[i].email == invites[j].email ==> i == j
  }

  ghost predicate UniqueInviteTokens(invites: map<Id, Invite>) {
    forall i, j :: i in invites && j in invites && invites[i].token == invites[j].token ==> i == j
  }

  /** No user other than `except` has this email. */
  predicate EmailFree(users: map<Id, User>, email: string, except: Option<Id>) {
    forall j :: j in users && Some(j) != except ==> users[j].email != email
  }

  /** No user other than `except` carries this reset token. */
  predicate ResetTokenFree(users: map<Id, User>, token: Option<string>, except: Id) {
    token.Some? ==> forall j :: j in users && j != except ==> users[j].resetToken != token
  }

  predicate InviteEmailFree(invites: map<Id, Invite>, email: string) {
    forall j :: j in invites ==> invites[j].email != email
  }

  predicate InviteTokenFree(invites: map<Id, Invite>, token: string) {
    forall j :: j in invites ==> invites[j].token != token
  }

  /** `User.findOne({ email })`; the unique index leaves at most one candidate. */
  function FindUserByEmail(users: map<Id, User>, email: string): (r: Option<Id>)
    requires UniqueUserEmails(users)
    ensures r.Some? ==> r.value in users && users[r.value].email == email
    ensures r.None? <==> EmailFree(users, email, None)
  {
    if exists id :: id in users && users[id].email == email then
      var id :| id in users && users[id].email == email; Some(id)
    else None
  }

  /** `User.findOne({ reset_password_token: token })`. */
  function FindUserByResetToken(users: map<Id, User>, token: string): (r: Option<Id>)
    requires UniqueResetTokens(users)
    ensures r.Some? ==> r.value in users && users[r.value].resetToken == Some(token)
    ensures r.None? <==> forall j :: j in users ==> users[j].resetToken != Some(token)
  {
    if exists id :: id in users && users[id].resetToken == Some(token) then
      var id :| id in users && users[id].resetToken == Some(token); Some(id)
    else None
  }

  /** `Invite.findOne({ email })`. */
  function FindInviteByEmail(invites: map<Id, Invite>, email: string): (r: Option<Id>)
    requires UniqueInviteEmails(invites)
    ensures r.Some? ==> r.value in invites && invites[r.value].email == email
    ensures r.None? <==> InviteEmailFree(invites, email)
  {
    if exists id :: id in invites && invites[id].email == email then
      var id :| id in invites && invites[id].email == email; Some(id)
    else None
  }

  /** `Invite.findOne({ token })`. */
  function FindInviteByToken(invites: map<Id, Invite>, token: string): (r: Option<Id>)
    requires UniqueInviteTokens(invites)
    ensures r.Some? ==> r.value in invites && invites[r.value].token == token
    ensures r.None? <==> InviteTokenFree(invites, token)
  {
    if exists id :: id in invites && invites[id].token == token then
      var id :| id in invites && invites[id].token == token; Some(id)
    else None
  }

  /** The lookup by token reads tokens only: invites that differ in their emails give the same answer. */
  lemma FindInviteByTokenIgnoresEmails(a: map<Id, Invite>, b: map<Id, Invite>, token: string)
    requires UniqueInviteTokens(a) && UniqueInviteTokens(b)
    requires a.Keys == b.Keys && forall id :: id in a ==> a[id].token == b[id].token
    ensures FindInviteByToken(a, token) == FindInviteByToken(b, token)
  {
    var ra, rb := FindInviteByToken(a, token), FindInviteByToken(b, token);
    if ra.Some? && rb.Some? {
      assert b[ra.value].token == token;
    }
  }

  /**
   * The unique email index on users; at most one invite per email (the check made
   * before every insertion); and no two invites or users sharing a random token.
   */
  ghost predicate Indexed(invites: map<Id, Invite>, users: map<Id, User>) {
    && UniqueUserEmails(users)
    && UniqueResetTokens(users)
    && UniqueInviteEmails(invites)
    && UniqueInviteTokens(invites)
  }

  /** Writing `user` at `id` keeps the store indexed when no other user has its email or reset token. */
  lemma UpdateKeepsIndexed(invites: map<Id, Invite>, users: map<Id, User>, id: Id, user: User)
    requires Indexed(invites, users)
    requires EmailFree(users, user.email, Some(id)) && ResetTokenFree(users, user.resetToken, id)
    ensures Indexed(invites, users[id := user])
  {
    var u := users[id := user];
    forall i, j | i in u && j in u && u[i].email == u[j].email
      ensures i == j
    {
      if i != id && j != id {
        assert users[i].email == users[j].email;
      }
    }
    forall i, j | i in u && j in u && u[i].resetToken.Some? && u[i].resetToken == u[j].resetToken
      ensures i == j
    {
      if i != id && j != id {
        assert users[i].resetToken == users[j].resetToken;
      }
    }
  }

  class Db {
    var invites: map<Id, Invite>
    var users: map<Id, User>

    ghost predicate Valid()
      reads this
    {
      Indexed(invites, users)
    }

    constructor ()
      ensures Valid() && invites == map[] && users == map[]
    {
      invites := map[];
      users := map[];
    }

    /** `Invite.create({ email, token })`: the invites collection has no index, so this always succeeds. */
    method InsertInvite(id: Id, invite: Invite)
      requires Valid() && id !in invites
      requires InviteEmailFree(invites, invite.email) && InviteTokenFree(invites, invite.token)
      modifies this
      ensures Valid()
      ensures invites == old(invites)[id := invite] && users == old(users)
    {
      invites := invites[id := invite];
    }

    /** `invite.delete()`. */
    method RemoveInvite(id: Id)
      requires Valid()
      modifies this
      ensures Valid()
      ensures invites == old(invites) - {id} && users == old(users)
    {
      invites := invites - {id};
    }

    /** `User.create(user)`: refused by the unique index when the email is taken. */
    method InsertUser(id: Id, user: User) returns (err: Option<string>)
      requires Valid() && id !in users && user.resetToken == None
      modifies this
      ensures Valid() && invites == old(invites)
      ensures err == if EmailFree(old(users), user.email, None) then None else Some(DuplicateKeyError(user.email))
      ensures users == if err.None? then old(users)[id := user] else old(users)
    {
      var free := EmailFree(users, user.email, None);
      if free {
        UpdateKeepsIndexed(invites, users, id, user);
        users := users[id := user];
        err := None;
      } else {
        err := Some(DuplicateKeyError(user.email));
      }
    }

    /** `user.save()` of an existing document: refused by the unique index when another user has the email. */
    method SaveUser(id: Id, user: User) returns (err: Option<string>)
      requires Valid() && id in users && ResetTokenFree(users, user.resetToken, id)
      modifies this
      ensures Valid() && invites == old(invites)
      ensures err == if EmailFree(old(users), user.email, Some(id)) then None else Some(DuplicateKeyError(user.email))
      ensures users == if err.None? then old(users)[id := user] else old(users)
    {
      var free := EmailFree(users, user.email, Some(id));
      if free {
        UpdateKeepsIndexed(invites, users, id, user);
        users := users[id := user];
        err := None;
      } else {
        err := Some(DuplicateKeyError(user.email));
      }
    }

    /** `user.delete()`. */
    method RemoveUser(id: Id)
      requires Valid()
      modifies this
      ensures Valid()
      ensures users == old(users) - {id} && invites == old(invites)
    {
      users := users - {id};
    }
  }
}
