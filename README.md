# express-api-kit: invitations and accounts

This project models the invitation-and-account lifecycle of express-api-kit, an Express and
Mongoose REST API.

- **Invitations.** An administrator invites an email address. The server makes a token from
  20 random bytes written as hex, mails a registration link and stores the invite. Anyone
  holding the token can check it, and can then sign up with a password. Signup creates an
  account with role `user` and deletes the invite.
- **Account handlers.** These cover login (a JSON Web Token valid for five days), the
  forgot-password and reset-password pair (a second random token stored on the account),
  changing the password or the email of the signed-in account, and the administrators'
  operations: change role, list accounts, delete accounts, list invites, delete invites.
- **Guards.** Two pieces of middleware guard the routes. One needs a bearer token that
  verifies. The other also needs the role `admin`.
- **Validation.** The route table attaches a password policy and a role whitelist (`user`,
  `admin`). The password policy asks for at least 6 characters, a digit and a letter. The
  variation selectors U+FE0E and U+FE0F do not count towards the 6.

How the model is laid out:

- **The store.** `Models.Db` is a class with two map fields, `invites` and `users`, keyed by
  ObjectId. Its `Valid()` invariant holds four facts:
  - the unique index on the accounts' email;
  - at most one invite per email, which `createInvite` checks before every insertion;
  - no two invites carry the same random token;
  - no two accounts carry the same reset token.

  The two writes that can break the unique email index, `InsertUser` and `SaveUser`, refuse
  the write with MongoDB's duplicate-key error.
- **Handlers.** Each handler is a method `modifies db` that returns the HTTP reply (status,
  and message or token). Handlers that only read the store are functions with `reads db`.
- **bcrypt and jsonwebtoken.** These are function-valued parameters: `Bcrypt.Hasher` and
  `Jwt.Signer`. Ghost predicates `Bcrypt.Sound` and `Jwt.Sound` state what the rest of the
  model relies on:
  - a hash accepts the password it was made from;
  - it rejects every other password, provided both passwords fit bcrypt's 72-byte key
    (at most 71 UTF-8 bytes and no NUL character). bcrypt ignores whatever follows the key.
    This treats bcrypt as free of collisions on such passwords (see "## Left out");
  - a signed token is a space-free compact string;
  - the token verifies to its claims before `exp`, and gives `jwt expired` from then on.
- **Validation.** express-validator's `check(field)` reads the field in every location
  that holds it: body, headers, path parameters and query. Every such value must pass.
  When none holds it, one missing value is checked, and it reads as "". The model runs
  each chain over these instances, validator after validator.
- **Outside inputs.** Random bytes, ObjectIds, bcrypt salts, the time, the `isEmail`
  predicate and the outcome of sending a mail are parameters.
- **Behaviours of the code worth knowing.** The model follows them as written:
  - signup creates the account and then deletes the invite, as two separate writes;
  - a missing account in change-role is a 500 'User not found', not a 404;
  - change-password answers 401 'Incorrect password';
  - the cleared reset token is `null`;
  - the invites collection has no unique index;
  - a change-email whose save the index refuses still reports success (see Findings).

## Model

| member | source | states |
|---|---|---|
| Hex.Encode | controllers/inviteController.js:51 | `toString('hex')` of n bytes is exactly 2n lower-case hex digits |
| Hex.Decode | controllers/inviteController.js:51 | reading hex back gives half as many bytes as digits |
| Hex.DecodeEncode | controllers/inviteController.js:51 | decoding the hex text of any bytes gives back those bytes |
| Hex.EncodeInjective | controllers/inviteController.js:51 | different random bytes never give the same token text |
| Hex.RandomToken | controllers/userController.js:230 | a token from 20 random bytes is 40 lower-case hex digits and decodes back to those bytes |
| AuthHeader.Split | middlewares/isAdminMiddleware.js:3 | `split(' ')` yields at least one field, and no field contains a space |
| AuthHeader.JoinSplit | middlewares/isAdminMiddleware.js:3 | joining the fields of `split(' ')` with single spaces rebuilds the header exactly |
| AuthHeader.SplitWord | middlewares/isAdminMiddleware.js:3 | a string without spaces splits into itself alone |
| AuthHeader.SplitAppend | middlewares/isAdminMiddleware.js:3 | splitting `a + " " + b` gives the fields of a followed by the fields of b |
| AuthHeader.SplitJoin | middlewares/isAdminMiddleware.js:3 | space-free fields joined by single spaces split back into the same fields |
| AuthHeader.BearerToken | middlewares/isAdminMiddleware.js:3-10 | the token both guards read from the header is, when present, non-empty and space-free |
| AuthHeader.TokenAfterAnyScheme | middlewares/isLoggedInMiddleware.js:3 | `<scheme> <token>` yields that token whatever the scheme word is (it is never checked to be 'Bearer') |
| AuthHeader.SecondFieldIsToken | middlewares/isLoggedInMiddleware.js:3 | a non-empty, space-free second field is the token whatever follows it, so `Bearer t extra` yields `t` |
| AuthHeader.TokenIsSecondField | middlewares/isLoggedInMiddleware.js:3-10 | every token the guards accept is the second space-separated field of the header |
| AuthHeader.NoTokenWithoutSecondField | middlewares/isLoggedInMiddleware.js:3-10 | a missing header, a single word or a double space gives no token (the 401 'Access token is undefined' case) |
| Jwt.LoginClaims | controllers/userController.js:267-271 | login signs the email and role with `exp - iat` = 432000 seconds |
| Jwt.LoginTokenLifetime | controllers/userController.js:267-271 | a login token verifies to its claims for exactly five days and is `jwt expired` from then on |
| Models.FindUserByEmail | models/userModel.js:4-8 | `User.findOne({ email })` finds the account with that email, and finds nothing exactly when no account has it |
| Models.FindUserByResetToken | controllers/userController.js:53-54 | `findOne({ reset_password_token })` finds the account with that token, and finds nothing exactly when none has it |
| Models.FindInviteByEmail | controllers/inviteController.js:34 | `Invite.findOne({ email })` finds the invite for that email, and finds nothing exactly when there is none |
| Models.FindInviteByToken | services/userService.js:4 | `Invite.findOne({ token })` finds the invite with that token, and finds nothing exactly when there is none |
| Models.FindInviteByTokenIgnoresEmails | services/userService.js:4 | the lookup by token depends on the invites' tokens only, not on their emails |
| Models.UpdateKeepsIndexed | models/userModel.js:3-21 | writing an account whose email and reset token no other account has keeps all four uniqueness invariants |
| Models.Db.constructor | models/userModel.js:23 | the empty store satisfies the invariant |
| Models.Db.InsertInvite | controllers/inviteController.js:62 | `Invite.create` adds exactly that invite and keeps the invariant |
| Models.Db.RemoveInvite | controllers/inviteController.js:87 | `invite.delete()` removes exactly that invite |
| Models.Db.InsertUser | models/userModel.js:7 | `User.create` succeeds exactly when no account has the email; otherwise it fails with the duplicate-key error and the store is unchanged |
| Models.Db.SaveUser | models/userModel.js:7 | `user.save()` succeeds exactly when no other account has the email; otherwise it fails with the duplicate-key error and the store is unchanged |
| Models.Db.RemoveUser | controllers/userController.js:297 | `user.delete()` removes exactly that account |
| UserService.IsInviteExist | services/userService.js:3-6 | true exactly when some invite carries the token |
| InviteController.CheckToken | controllers/inviteController.js:8-22 | 200 exactly when an invite carries the token, otherwise 400 'Token is invalid' |
| InviteController.CreateInvite | controllers/inviteController.js:24-73 | see the first note below the table |
| InviteController.InvitationMail | controllers/inviteController.js:54-61 | the registration mail goes to the invited address, and its link starts with the application URL and ends with the token |
| InviteController.GetAllInvites | controllers/inviteController.js:75-82 | one entry per invite, holding its id and email and never its token; `results` is their number |
| InviteController.DeleteInvite | controllers/inviteController.js:84-97 | 201 with only that invite removed, or 404 'Invite is not found' with nothing changed |
| UserController.NewAccount | controllers/userController.js:27-34 | the new account has the invite's email, the bcrypt hash of the password at cost 12, role 'user' and no reset token |
| UserController.SungUp | controllers/userController.js:9-49 | see the second note below the table |
| UserController.CheckResetPasswordToken | controllers/userController.js:51-65 | 200 exactly when some account carries the reset token, otherwise 400 |
| UserController.ResetPassword | controllers/userController.js:67-100 | an unknown token gives 400 with nothing changed; otherwise that account's password is the new hash and its reset token is cleared, so the token no longer checks |
| UserController.ChangePassword | controllers/userController.js:102-136 | a verification error gives 401 with its message; no account gives 401 with the TypeError message; a wrong password gives 401; otherwise only that account's password changes, to the new hash |
| UserController.ChangeEmail | controllers/userController.js:138-177 | validator errors give 400; every error the handler throws gives 500 with nothing changed; a right password answers 201, while the store changes only when no other account has the new email |
| UserController.ChangeRole | controllers/userController.js:179-209 | an unknown id gives 500 'User not found'; otherwise 201 and only that account's role changes |
| UserController.ForgotPassword | controllers/userController.js:211-252 | an unknown email gives 400; otherwise a fresh 40-digit token is stored on that account and mailed, and a failed mail gives 400 'Error while reset password' with the token still stored |
| UserController.Login | controllers/userController.js:254-283 | a token exactly when an account has the email and its hash accepts the password; the token is signed over that email and role; every other case is the same 400 |
| UserController.GetAllUsers | controllers/userController.js:285-292 | one entry per account with its email and role, never the hash or the reset token; `results` is their number |
| UserController.DeleteUser | controllers/userController.js:294-307 | 201 with only that account removed, or 404 'User is not found' with nothing changed |
| UserController.ResetMail | controllers/userController.js:235-242 | the reset mail goes to the account's address, and its link is the fixed reset base followed by exactly the token |
| UserController.ChangeEmailAwaited | controllers/userController.js:165-175 | the awaited save: a refused save gives 500 with the index error, and a 201 means some account now has the new email |
| IsLoggedInMiddleware.IsLoggedIn | middlewares/isLoggedInMiddleware.js:2-22 | the request goes on exactly when the header has a token and it verifies; a missing token gives 401 'Access token is undefined', a failed verification gives 401 with its message |
| IsLoggedInMiddleware.IsLoggedInStateless | middlewares/isLoggedInMiddleware.js:2-22 | the outcome depends only on the verifier's verdict about the header's token |
| IsAdminMiddleware.IsAdmin | middlewares/isAdminMiddleware.js:2-29 | the request goes on exactly when the token is present, verifies and has role 'admin'; a missing token gives 401 'Access token is undefined', a failed verification 401 with its message, and a verified token with another role 403 'Not enough access rights'; a 403 only ever follows a verified token |
| IsAdminMiddleware.AdminIsLoggedIn | middlewares/isAdminMiddleware.js:2-29 | whatever the admin guard lets through, the signed-in guard lets through |
| IsAdminMiddleware.AdminRefusesWhatLoggedInRefuses | middlewares/isAdminMiddleware.js:2-29 | where the signed-in guard refuses, the admin guard refuses with the same status and message |
| UserRoutes.GuardOf | routes/userRoutes.js:11-62 | change-role, the listing and deletion take the admin guard; change-password and change-email take the signed-in guard; the other five routes take none |
| UserRoutes.Instances | routes/userRoutes.js:12 | `check(field)` validates one value per location holding the field (body first, query last), so equal values in two locations are both checked; a field no location holds is validated once, as "" |
| UserRoutes.InstancesPerLocation | routes/userRoutes.js:12 | a value is validated once for each location holding it with that value, and no more often |
| UserRoutes.LongEnough | routes/userRoutes.js:13 | `isLength({min: 6})`: at least 6 characters once U+FE0E and U+FE0F are left out of the count |
| UserRoutes.NoSelectors | routes/userRoutes.js:13 | a string has nothing to leave out of the count exactly when none of its characters is U+FE0E or U+FE0F |
| UserRoutes.LengthCounted | routes/userRoutes.js:13 | a long enough password has at least 6 characters, and without variation selectors 6 characters are enough |
| UserRoutes.HasDigit | routes/userRoutes.js:15 | `matches(/\d/)`: some character is one of 0-9 |
| UserRoutes.DigitSomewhere | routes/userRoutes.js:15 | `HasDigit` holds exactly when some position holds a digit 0-9 |
| UserRoutes.HasLetter | routes/userRoutes.js:17 | `matches(/[A-Za-z]/)`: some character is an ASCII letter |
| UserRoutes.LetterSomewhere | routes/userRoutes.js:17 | `HasLetter` holds exactly when some position holds an ASCII letter |
| UserRoutes.IsRole | routes/userRoutes.js:55 | `isIn(['user', 'admin'])`: the value is exactly 'user' or 'admin' |
| UserRoutes.Failures | routes/userRoutes.js:12-18 | a validator fails once per instance that does not pass it, and fails nowhere exactly when every instance passes |
| UserRoutes.FailuresAppend | routes/userRoutes.js:12-18 | the failures over two groups of instances are the first group's followed by the second's |
| UserRoutes.FailuresSingle | routes/userRoutes.js:12-18 | a single instance fails a validator exactly when it does not pass it |
| UserRoutes.PasswordFailures | routes/userRoutes.js:12-18 | each check fails exactly when some instance breaks its rule; failures come in the chain's order (length, digit, letter); with one instance each appears at most once |
| UserRoutes.PasswordErrors | routes/userRoutes.js:12-18 | no messages exactly when every instance is an acceptable password |
| UserRoutes.RoleErrors | routes/userRoutes.js:54-56 | no messages exactly when every instance of `role` is 'user' or 'admin'; otherwise only 'Role is not available' |
| UserRoutes.Validate | routes/userRoutes.js:11-56 | routes without a chain give no errors; the email routes pass exactly when every instance of `email` is an email |
| UserRoutes.Admit | routes/userRoutes.js:34-62 | the guard runs first: a guarded route reaches its handler exactly when its guard calls `next`, an unguarded one always; a refusal is the guard's own status and message, a 401 or 403; the handler gets the validator's errors |
| UserRoutes.GuardBeforeValidator | routes/userRoutes.js:34-62 | a request the route's guard refuses gets that guard's status and message, and so does every request with the same Authorization header |
| UserRoutes.GuardedRoutes | routes/userRoutes.js:11-62 | change-role, listing and deletion need a verified admin token; change-password and change-email need a verified token; the other routes take no guard |
| UserRoutes.PasswordRuleApplies | routes/userRoutes.js:11-41 | the password rule decides signup and reset through every instance of `password`, and change-password through every instance of `new_password` |
| UserRoutes.CurrentPasswordUnchecked | routes/userRoutes.js:34-41 | change-password's current `password` is never checked: changing it leaves the validation result as it was |
| UserRoutes.BodyPasswordAlone | routes/userRoutes.js:12-18 | a password given only in the body is judged by that one value |
| UserRoutes.RoleWhitelist | routes/userRoutes.js:54-56 | change-role's validation passes exactly when every `role` is 'user' or 'admin' |
| UserRoutes.LoginUnvalidated | routes/userRoutes.js:48 | login has no guard and no validator |
| UserRoutesExamples.TwoInstancesFailures | routes/userRoutes.js:12-18 | over "abc123" and "x" the chain fails the length and digit checks, once each |
| UserRoutesExamples.QueryPasswordChecked | routes/userRoutes.js:11-18 | signup with body password "abc123" and `?password=x` is refused with the length and digit messages |
| UserRoutesExamples.RegistrationPasswordAccepted | routes/userRoutes.js:12-18 | "abc123" meets the password rule |
| UserRoutesExamples.PasswordExamples | routes/userRoutes.js:12-18 | "" fails all three checks in the chain's order |
| UserRoutesExamples.DigitlessPassword | routes/userRoutes.js:12-18 | "abcdef" fails only the digit check |
| UserRoutesExamples.SelectorNotCounted | routes/userRoutes.js:13-14 | "abc12" followed by U+FE0F fails only the length check |
| UserRoutesExamples.RepeatedValueReportedTwice | routes/userRoutes.js:11-18 | signup with password "x" in both body and query gets each of the length and digit messages twice |
| Bcrypt.Sound | controllers/userController.js:28 | what the model assumes of bcrypt: a hash accepts its own password, and rejects any other one when both fit the 72-byte key |
| Jwt.Sound | controllers/userController.js:267-271 | what the model assumes of jsonwebtoken: a signed token is non-empty and space-free, verifies to its claims before `exp`, and is `jwt expired` from `exp` on |
| Bcrypt.Truncating | controllers/userController.js:28 | a hasher that ignores what follows the first 72 characters meets `Sound` |
| Bcrypt.TruncatingIgnoresTail | controllers/userController.js:266 | that hasher accepts a password which differs from the hashed one only after the key |
| Lifecycle.LoginTokenAdmitted | controllers/userController.js:267-276 | within five days an issued token passes the signed-in guard, and passes the admin guard exactly when the account's role is 'admin' (403 otherwise) |
| Lifecycle.ExpiredLoginTokenRefused | controllers/userController.js:267-271 | from five days on, both guards refuse the token with 401 'jwt expired' |
| Lifecycle.SignedUpAccountLogsIn | controllers/userController.js:27-37 | the account signup creates logs in as 'user' with its password, and refuses every other password when both fit bcrypt's key |
| Lifecycle.LoginFailuresIndistinguishable | controllers/userController.js:255-282 | an unknown email and a wrong password give the same reply |
| Lifecycle.RegistrationExample | controllers/userController.js:9-49 | invite (200), check (200), sign up with "abc123" (201), check again (400), invite again (400 'User with this email already exist') |
| Lifecycle.ChangeEmailLostWrite | controllers/userController.js:165-170 | change-email to another account's email answers 201 while the account keeps its old email; the awaited version answers 500 |

Notes on two rows whose contracts are too long for the table:

- `InviteController.CreateInvite`:
  - validator errors give 402;
  - an invite already held by the email gives 400, checked before an existing account (400);
  - otherwise the mail carries the new 40-digit token;
  - a failed mail gives 400 with its error, and no invite is added;
  - otherwise the reply is 200 and exactly that invite is added.
- `UserController.SungUp`:
  - an unknown token gives 400 with nothing changed;
  - otherwise the account is created with the invite's email, and the invite is removed;
  - when the email is already taken, the reply is 400 with the duplicate-key error, and both collections stay as they were;
  - a 201 leaves the token unusable.

## Left out

- index.js, the API documentation, and routes/inviteRoutes.js are not part of this model: server start-up, the database connection and route mounting are wiring.
- bcryptjs and jsonwebtoken are abstract. Their algorithms are not modelled, only the properties in `Bcrypt.Sound` and `Jwt.Sound`. `Bcrypt.Truncating` shows the hasher properties can hold together. No such witness is given for `Jwt.Sound`.
- express-validator's error objects are reduced to their messages. Its `isEmail` check is a predicate parameter.
- The cookies location of `check(field)` is left out: the server installs no cookie parser, so it never holds a field.
- Field values are strings. Arrays and objects that the JSON body or the query string can carry are left out.
- The order of messages across several instances follows the runner as modelled: validator by validator, each over every instance.
- Bcrypt.Sound: idealises bcrypt as collision-free on passwords that fit the key (at most 71 UTF-8 bytes, no NUL). A 184-bit digest cannot tell apart all such passwords, so collisions exist by counting, but none is known to be findable. Passwords that share their first 72 key bytes are not promised to be told apart.
- Lifecycle.SignedUpAccountLogsIn: the refusal of other passwords is stated only for passwords that fit bcrypt's key, because bcrypt accepts any password sharing the first 72 bytes of the real one. The refusal rests on the collision-freeness that `Bcrypt.Sound` assumes.
- UserRoutes.LongEnough: follows `isLength` as validator.js 13 and later define it, leaving U+FE0E and U+FE0F out of the count. Earlier releases count them. The installed version is not part of this model.
- Sending mail is an input (`Delivery`): the mail the handler would send is returned instead. Which mail transport is used, and what failures it reports, are left out.
- Un-awaited `save()` and `delete()` calls are modelled as done before the reply. Requests are modelled one at a time, so interleavings of concurrent requests are left out.
- UserController.ChangeEmail: the reply is modelled. When another request runs before the un-awaited save finishes, the order of writes is not modelled.
- UserController.ChangeEmail: the refused save is a promise rejection that nothing handles, and index.js installs no `unhandledRejection` handler. From Node 15 on, the process then ends just after the 201 is sent. The model keeps serving.
- Random bytes and new ObjectIds are parameters, assumed not to collide with stored tokens and ids (the `requires` of CreateInvite, ForgotPassword and SungUp). bcrypt salts are parameters too. Collisions happen with negligible probability.
- A malformed ObjectId in change-role, delete-user or delete-invite makes Mongoose raise a cast error. That case is left out: an id is either a key of the store or not.
- A missing request field reaching bcrypt (`undefined` as a password) raises an error. That is left out: fields are strings, and an absent field reads as "" in the validator model.
- The duplicate-key message follows MongoDB's format for the `express-api-kit.users` collection. The server's exact wording and its version-dependent details are not modelled.
- The reply body shape is reduced to status plus message (the 404 of delete-invite carries its text under `error`). Listings are maps from id to entry, so their order is left out.
- Server configuration values (`JWT_SECRET`, `APP_URL`, `APP_NAME`) are parameters. The invitation mail's greeting and body text are not modelled.

## Findings

| source | as written | input that shows it | evidently intended | confidence | as-written member | corrected member |
|---|---|---|---|---|---|---|
| controllers/userController.js:165-170 | `user.save()` is not awaited, so the 201 is sent whatever the save does; the unique email index refuses it when the new email belongs to another account, and the catch block never sees that error; the rejection goes unhandled, which on Node 15 and later ends the process | accounts a@x.com and b@x.com; a@x.com, signed in and with its right password, asks for b@x.com: reply 201, email still a@x.com | await the save, so a refused save answers 500 with the index error and a 201 means the email changed | medium, not executed | Lifecycle.ChangeEmailLostWrite | UserController.ChangeEmailAwaited |
