/**
 * The /users router: which guard each route runs, the validator chains, and the order in
 * which they run (guard, then validator, then the handler, which reads the validator's errors).
 */
module UserRoutes {

  import opened Optional
  import opened Http
  import opened Jwt
  import opened AuthHeader
  import Models
  import IsLoggedInMiddleware
  import IsAdminMiddleware

  datatype Route =
    | SignUp          // POST /signup/:token
    | CheckToken      // GET /check-token/:token
    | ResetPassword   // POST /reset-password/:token
    | ChangePassword  // POST /change-password/
    | ChangeEmail     // POST /change-email
    | Login           // POST /login
    | ForgotPassword  // POST /forgot-password
    | ChangeRole      // PUT /change-role/:id
    | GetAllUsers     // GET /
    | DeleteUser      // DELETE /:id

  datatype Guard = LoggedIn | Admin

  /** The guard table: the administrators' routes, the signed-in routes, and the open rest. */
  function GuardOf(route: Route): (g: Option<Guard>)
    ensures g == Some(Admin) <==> route in {ChangeRole, GetAllUsers, DeleteUser}
    ensures g == Some(LoggedIn) <==> route in {ChangePassword, ChangeEmail}
    ensures g == None <==> route in {SignUp, CheckToken, ResetPassword, Login, ForgotPassword}
  {
    match route
    case ChangePassword | ChangeEmail => Some(LoggedIn)
    case ChangeRole | GetAllUsers | DeleteUser => Some(Admin)
    case SignUp | CheckToken | ResetPassword | Login | ForgotPassword => None
  }

  type Fields = map<string, string>

  /**
   * A request as `check(field)` reads it: the JSON body, the headers (names in lower case),
   * the path parameters and the query. The server installs no cookie parser, so the cookies
   * location never holds a field.
   */
  datatype Request = Request(body: Fields, headers: Fields, params: Fields, query: Fields)

  /** The Authorization header both guards read. */
  function Authorization(req: Request): Option<string> {
    if "authorization" in req.headers then Some(req.headers["authorization"]) else None
  }

  function Present(fields: Fields, name: string): seq<string> {
    if name in fields then [fields[name]] else []
  }

  /** `v` is the value of field `name` in one of the request's locations. */
  predicate Occurs(req: Request, name: string, v: string) {
    || (name in req.body && req.body[name] == v)
    || (name in req.headers && req.headers[name] == v)
    || (name in req.params && req.params[name] == v)
    || (name in req.query && req.query[name] == v)
  }

  /** The number of locations that hold field `name`. */
  function Holders(req: Request, name: string): nat {
    (if name in req.body then 1 else 0) + (if name in req.headers then 1 else 0)
    + (if name in req.params then 1 else 0) + (if name in req.query then 1 else 0)
  }

  predicate Absent(req: Request, name: string) {
    name !in req.body && name !in req.headers && name !in req.params && name !in req.query
  }

  /**
   * The values `check(name)` validates: one per location that holds the field, in the order
   * body, headers, params, query, and every one of them must pass. When no location holds
   * it, a single missing value is validated, which the validators read as "".
   */
  function Instances(req: Request, name: string): (vs: seq<string>)
    ensures Absent(req, name) ==> vs == [""]
    ensures !Absent(req, name) ==> |vs| == Holders(req, name)
    ensures forall v :: v in vs <==> Occurs(req, name, v) || (Absent(req, name) && v == "")
    ensures name in req.body ==> vs[0] == req.body[name]
    ensures name in req.query ==> vs[|vs| - 1] == req.query[name]
  {
    var present := Present(req.body, name) + Present(req.headers, name) + Present(req.params, name)
                   + Present(req.query, name);
    if present == [] then [""] else present
  }

  /** How often location `fields` contributes the value `v` of field `name`: once or not at all. */
  function Holding(fields: Fields, name: string, v: string): nat {
    if name in fields && fields[name] == v then 1 else 0
  }

  /** A location contributes its value of the field once, and no other value. */
  lemma PresentCount(fields: Fields, name: string, v: string)
    ensures multiset(Present(fields, name))[v] == Holding(fields, name, v)
  {
  }

  /** A value occurs in four sequences laid end to end as often as in the four together. */
  lemma CountOfFour(b: seq<string>, h: seq<string>, p: seq<string>, q: seq<string>, v: string)
    ensures multiset(b + h + p + q)[v] == multiset(b)[v] + multiset(h)[v] + multiset(p)[v] + multiset(q)[v]
  {
    assert multiset(b + h + p + q) == multiset(b) + multiset(h) + multiset(p) + multiset(q);
  }

  /**
   * Each location that holds the field contributes its value exactly once, so a value
   * is validated as many times as there are locations holding it.
   */
  lemma InstancesPerLocation(req: Request, name: string, v: string)
    requires !Absent(req, name)
    ensures multiset(Instances(req, name))[v]
            == Holding(req.body, name, v) + Holding(req.headers, name, v)
               + Holding(req.params, name, v) + Holding(req.query, name, v)
  {
    var b, h, p, q := Present(req.body, name), Present(req.headers, name), Present(req.params, name),
                      Present(req.query, name);
    assert Instances(req, name) == b + h + p + q;
    CountOfFour(b, h, p, q, v);
    PresentCount(req.body, name, v);
    PresentCount(req.headers, name, v);
    PresentCount(req.params, name, v);
    PresentCount(req.query, name, v);
  }

  /** Field `name` is given in the body and nowhere else. */
  predicate OnlyInBody(req: Request, name: string) {
    name in req.body && name !in req.headers && name !in req.params && name !in req.query
  }

  const LengthMessage: string := "Must be at least 6 chars long"
  const DigitMessage: string := "Must contain a number"
  const LetterMessage: string := "Must contain a character"
  const EmailMessage: string := "Email is invalid"
  const RoleMessage: string := "Role is not available"

  /** The variation selectors U+FE0E and U+FE0F, which `isLength` does not count. */
  predicate IsSelector(c: char) {
    c == '\U{FE0E}' || c == '\U{FE0F}'
  }

  /** The number of variation selectors in a string. */
  function Selectors(s: string): (n: nat)
    ensures n <= |s|
  {
    if s == [] then 0 else (if IsSelector(s[0]) then 1 else 0) + Selectors(s[1..])
  }

  /** A string has no selector to leave out exactly when none of its characters is one. */
  lemma {:induction false} NoSelectors(s: string)
    ensures Selectors(s) == 0 <==> forall i :: 0 <= i < |s| ==> !IsSelector(s[i])
    decreases |s|
  {
    if s != [] {
      NoSelectors(s[1..]);
      assert forall i :: 1 <= i < |s| ==> s[i] == s[1..][i - 1];
    }
  }

  /**
   * `isLength({min: 6})` of validator.js. It takes the UTF-16 length and subtracts one per
   * surrogate pair, which leaves the number of characters `|s|`, then subtracts the
   * variation selectors.
   */
  predicate LongEnough(s: string) {
    |s| - Selectors(s) >= 6
  }

  /**
   * A long enough password has at least six characters; without variation selectors,
   * six characters are enough.
   */
  lemma LengthCounted(s: string)
    ensures LongEnough(s) ==> |s| >= 6
    ensures (forall i :: 0 <= i < |s| ==> !IsSelector(s[i])) ==> (LongEnough(s) <==> |s| >= 6)
  {
    NoSelectors(s);
  }

  /** `/\d/`: some character is a digit, which without the `u` flag is one of 0-9. */
  predicate HasDigit(s: string) {
    s != [] && ('0' <= s[0] <= '9' || HasDigit(s[1..]))
  }

  /** `/[A-Za-z]/`: some character is an ASCII letter. */
  predicate HasLetter(s: string) {
    s != [] && ('A' <= s[0] <= 'Z' || 'a' <= s[0] <= 'z' || HasLetter(s[1..]))
  }

  /** `HasDigit` holds exactly when some position of the string holds a digit. */
  lemma {:induction false} DigitSomewhere(s: string)
    ensures HasDigit(s) <==> exists i :: 0 <= i < |s| && '0' <= s[i] <= '9'
    decreases |s|
  {
    if s != [] {
      DigitSomewhere(s[1..]);
      assert forall i :: 1 <= i < |s| ==> s[i] == s[1..][i - 1];
      if HasDigit(s[1..]) {
        var k :| 0 <= k < |s[1..]| && '0' <= s[1..][k] <= '9';
        assert '0' <= s[k + 1] <= '9';
      }
    }
  }

  /** `HasLetter` holds exactly when some position of the string holds an ASCII letter. */
  lemma {:induction false} LetterSomewhere(s: string)
    ensures HasLetter(s) <==> exists i :: 0 <= i < |s| && ('A' <= s[i] <= 'Z' || 'a' <= s[i] <= 'z')
    decreases |s|
  {
    if s != [] {
      LetterSomewhere(s[1..]);
      assert forall i :: 1 <= i < |s| ==> s[i] == s[1..][i - 1];
      if HasLetter(s[1..]) {
        var k :| 0 <= k < |s[1..]| && ('A' <= s[1..][k] <= 'Z' || 'a' <= s[1..][k] <= 'z');
        assert 'A' <= s[k + 1] <= 'Z' || 'a' <= s[k + 1] <= 'z';
      }
    }
  }

  /** The password rule: at least 6 characters, a digit and an ASCII letter. */
  predicate AcceptablePassword(s: string) {
    LongEnough(s) && HasDigit(s) && HasLetter(s)
  }

  /** `isIn(['user', 'admin'])`. */
  predicate IsRole(s: string) {
    s == Models.UserRole || s == Models.AdminRole
  }

  /** The validators of the chains, in the order the password chain declares its three. */
  datatype Rule = Length | Digit | Letter | Role | Email

  /** Whether a value passes a validator; `isEmail` is express-validator's own predicate and is passed in. */
  predicate Passes(rule: Rule, s: string, isEmail: string -> bool) {
    match rule
    case Length => LongEnough(s)
    case Digit => HasDigit(s)
    case Letter => HasLetter(s)
    case Role => IsRole(s)
    case Email => isEmail(s)
  }

  /** The `withMessage` of each validator. */
  function Message(rule: Rule): string {
    match rule
    case Length => LengthMessage
    case Digit => DigitMessage
    case Letter => LetterMessage
    case Role => RoleMessage
    case Email => EmailMessage
  }

  /** The position of each validator in its chain. */
  function Rank(rule: Rule): nat {
    match rule
    case Length => 0
    case Digit => 1
    case Letter => 2
    case Role | Email => 0
  }

  /**
   * One validator run over every instance of the field: it fails once for each instance
   * that does not pass it, in instance order.
   */
  function Failures(values: seq<string>, rule: Rule, isEmail: string -> bool): (errs: seq<Rule>)
    ensures |errs| <= |values|
    ensures forall i :: 0 <= i < |errs| ==> errs[i] == rule
    ensures errs == [] <==> forall v :: v in values ==> Passes(rule, v, isEmail)
    decreases |values|
  {
    if values == [] then []
    else
      var rest := Failures(values[1..], rule, isEmail);
      assert forall v :: v in values <==> v == values[0] || v in values[1..];
      (if Passes(rule, values[0], isEmail) then [] else [rule]) + rest
  }

  /** A single instance fails the validator exactly when it does not pass it. */
  lemma FailuresSingle(v: string, rule: Rule, isEmail: string -> bool)
    ensures Failures([v], rule, isEmail) == if Passes(rule, v, isEmail) then [] else [rule]
  {
    assert [v][1..] == [];
  }

  /** Running a validator over two groups of instances gives the two groups' failures in turn. */
  lemma {:induction false} FailuresAppend(a: seq<string>, b: seq<string>, rule: Rule, isEmail: string -> bool)
    ensures Failures(a + b, rule, isEmail) == Failures(a, rule, isEmail) + Failures(b, rule, isEmail)
    decreases |a|
  {
    if a == [] {
      assert a + b == b;
    } else {
      assert (a + b)[0] == a[0];
      assert (a + b)[1..] == a[1..] + b;
      FailuresAppend(a[1..], b, rule, isEmail);
    }
  }

  /** The messages the handler reads, one per failure. */
  function Messages(errs: seq<Rule>): (ms: seq<string>)
    ensures |ms| == |errs|
    ensures forall i :: 0 <= i < |errs| ==> ms[i] == Message(errs[i])
  {
    seq(|errs|, i requires 0 <= i < |errs| => Message(errs[i]))
  }

  /**
   * Three validators' failures in turn: each validator appears exactly when its own block is
   * non-empty, and ranks never decrease; with at most one failure per block they increase.
   */
  lemma ChainOrder(a: seq<Rule>, b: seq<Rule>, c: seq<Rule>, x: Rule, y: Rule, z: Rule)
    requires forall i :: 0 <= i < |a| ==> a[i] == x
    requires forall i :: 0 <= i < |b| ==> b[i] == y
    requires forall i :: 0 <= i < |c| ==> c[i] == z
    requires Rank(x) < Rank(y) < Rank(z)
    ensures x in a + b + c <==> a != []
    ensures y in a + b + c <==> b != []
    ensures z in a + b + c <==> c != []
    ensures forall i :: 0 <= i < |a + b + c| ==> (a + b + c)[i] in {x, y, z}
    ensures forall i, j :: 0 <= i < j < |a + b + c| ==> Rank((a + b + c)[i]) <= Rank((a + b + c)[j])
    ensures |a| <= 1 && |b| <= 1 && |c| <= 1 ==>
              forall i, j :: 0 <= i < j < |a + b + c| ==> Rank((a + b + c)[i]) < Rank((a + b + c)[j])
  {
    var errs := a + b + c;
    assert forall i :: 0 <= i < |errs| ==>
             if i < |a| then errs[i] == x else if i < |a| + |b| then errs[i] == y else errs[i] == z;
    if a != [] { assert errs[0] == x; }
    if b != [] { assert errs[|a|] == y; }
    if c != [] { assert errs[|a| + |b|] == z; }
  }

  /** The password chain fails nowhere exactly when every instance is acceptable. */
  lemma PasswordChainEmpty(values: seq<string>, isEmail: string -> bool, errs: seq<Rule>)
    requires errs == Failures(values, Length, isEmail) + Failures(values, Digit, isEmail) + Failures(values, Letter, isEmail)
    ensures errs == [] <==> forall v :: v in values ==> AcceptablePassword(v)
  {
  }

  /** Each check of the password chain fails exactly when some instance breaks its rule. */
  lemma PasswordChainMembers(values: seq<string>, isEmail: string -> bool, errs: seq<Rule>)
    requires errs == Failures(values, Length, isEmail) + Failures(values, Digit, isEmail) + Failures(values, Letter, isEmail)
    ensures Length in errs <==> exists v :: v in values && !LongEnough(v)
    ensures Digit in errs <==> exists v :: v in values && !HasDigit(v)
    ensures Letter in errs <==> exists v :: v in values && !HasLetter(v)
  {
    ChainOrder(Failures(values, Length, isEmail), Failures(values, Digit, isEmail), Failures(values, Letter, isEmail),
               Length, Digit, Letter);
  }

  /** The password chain's failures are its three checks, in the chain's order. */
  lemma PasswordChainOrder(values: seq<string>, isEmail: string -> bool)
    ensures var errs := Failures(values, Length, isEmail) + Failures(values, Digit, isEmail) + Failures(values, Letter, isEmail);
            && (forall i :: 0 <= i < |errs| ==> errs[i] in {Length, Digit, Letter})
            && (forall i, j :: 0 <= i < j < |errs| ==> Rank(errs[i]) <= Rank(errs[j]))
            && (|values| == 1 ==> forall i, j :: 0 <= i < j < |errs| ==> Rank(errs[i]) < Rank(errs[j]))
  {
    ChainOrder(Failures(values, Length, isEmail), Failures(values, Digit, isEmail), Failures(values, Letter, isEmail),
               Length, Digit, Letter);
  }

  /**
   * The password chain over the field's instances. The validators run one after the other,
   * each over every instance, so the failures come in the chain's order (length, digit,
   * letter); for a single instance each appears at most once.
   */
  function PasswordFailures(values: seq<string>, isEmail: string -> bool): (errs: seq<Rule>)
    ensures errs == [] <==> forall v :: v in values ==> AcceptablePassword(v)
    ensures Length in errs <==> exists v :: v in values && !LongEnough(v)
    ensures Digit in errs <==> exists v :: v in values && !HasDigit(v)
    ensures Letter in errs <==> exists v :: v in values && !HasLetter(v)
    ensures forall i :: 0 <= i < |errs| ==> errs[i] in {Length, Digit, Letter}
    ensures forall i, j :: 0 <= i < j < |errs| ==> Rank(errs[i]) <= Rank(errs[j])
    ensures |values| == 1 ==> forall i, j :: 0 <= i < j < |errs| ==> Rank(errs[i]) < Rank(errs[j])
  {
    var errs := Failures(values, Length, isEmail) + Failures(values, Digit, isEmail) + Failures(values, Letter, isEmail);
    PasswordChainEmpty(values, isEmail, errs);
    PasswordChainMembers(values, isEmail, errs);
    PasswordChainOrder(values, isEmail);
    errs
  }

  /** The password chain's messages as the handler reads them. */
  function PasswordErrors(values: seq<string>, isEmail: string -> bool): (errs: seq<string>)
    ensures errs == [] <==> forall v :: v in values ==> AcceptablePassword(v)
    ensures |errs| <= 3 * |values|
  {
    Messages(PasswordFailures(values, isEmail))
  }

  /** The role whitelist of change-role, over the field's instances. */
  function RoleErrors(values: seq<string>, isEmail: string -> bool): (errs: seq<string>)
    ensures errs == [] <==> forall v :: v in values ==> IsRole(v)
    ensures forall i :: 0 <= i < |errs| ==> errs[i] == RoleMessage
  {
    Messages(Failures(values, Role, isEmail))
  }

  /**
   * `validationResult(request)` after the route's chain. Routes without a chain give no
   * errors; the email routes pass exactly when every instance of `email` is an email.
   */
  function Validate(route: Route, req: Request, isEmail: string -> bool): (errs: seq<string>)
    ensures route in {CheckToken, Login, GetAllUsers, DeleteUser} ==> errs == []
    ensures route in {ChangeEmail, ForgotPassword} ==>
              (errs == [] <==> forall v :: v in Instances(req, "email") ==> isEmail(v))
  {
    match route
    case SignUp | ResetPassword => PasswordErrors(Instances(req, "password"), isEmail)
    case ChangePassword => PasswordErrors(Instances(req, "new_password"), isEmail)
    case ChangeEmail | ForgotPassword => Messages(Failures(Instances(req, "email"), Email, isEmail))
    case ChangeRole => RoleErrors(Instances(req, "role"), isEmail)
    case CheckToken | Login | GetAllUsers | DeleteUser => []
  }

  /** The middleware a guard names, run on the Authorization header. */
  function RunGuard(g: Guard, header: Option<string>, verify: string -> Verdict): GuardResult {
    match g
    case LoggedIn => IsLoggedInMiddleware.IsLoggedIn(header, verify)
    case Admin => IsAdminMiddleware.IsAdmin(header, verify)
  }

  /** What the router does with a request before the handler's own logic: answer it, or hand it the validation errors. */
  datatype Admission = Denied(status: nat, message: string) | Handled(errors: seq<string>)

  /**
   * The guard runs before the validator. A refusal is a 401 or a 403; a request that gets
   * past the guard reaches the handler with exactly the validator's errors.
   */
  function Admit(route: Route, req: Request, verify: string -> Verdict, isEmail: string -> bool): (a: Admission)
    ensures GuardOf(route).None? ==> a == Handled(Validate(route, req, isEmail))
    ensures GuardOf(route).Some? ==>
              (a.Handled? <==> RunGuard(GuardOf(route).value, Authorization(req), verify) == Next)
    ensures a.Denied? ==>
              && GuardOf(route).Some?
              && RunGuard(GuardOf(route).value, Authorization(req), verify) == Deny(a.status, a.message)
              && (a.status == 401 || a.status == 403)
    ensures a.Handled? ==> a.errors == Validate(route, req, isEmail)
  {
    var guard := match GuardOf(route)
                 case None => Next
                 case Some(g) => RunGuard(g, Authorization(req), verify);
    match guard
    case Deny(status, message) => Denied(status, message)
    case Next => Handled(Validate(route, req, isEmail))
  }

  /**
   * The guard runs first: a request it refuses is answered by it, whatever the rest of the
   * request holds.
   */
  lemma GuardBeforeValidator(route: Route, req: Request, verify: string -> Verdict, isEmail: string -> bool)
    requires GuardOf(route).Some?
    requires RunGuard(GuardOf(route).value, Authorization(req), verify).Deny?
    ensures var d := RunGuard(GuardOf(route).value, Authorization(req), verify);
            Admit(route, req, verify, isEmail) == Denied(d.status, d.message)
    ensures forall other: Request :: Authorization(other) == Authorization(req) ==>
              Admit(route, other, verify, isEmail) == Admit(route, req, verify, isEmail)
  {
  }

  /**
   * Change-role, the listing and deletion reach their handler only with a token that
   * verifies and carries the role 'admin'; change-password and change-email only with a
   * token that verifies; the other routes whatever the header.
   */
  lemma GuardedRoutes(route: Route, req: Request, verify: string -> Verdict, isEmail: string -> bool)
    ensures route in {ChangeRole, GetAllUsers, DeleteUser} && Admit(route, req, verify, isEmail).Handled? ==>
              && BearerToken(Authorization(req)).Some?
              && verify(BearerToken(Authorization(req)).value).Verified?
              && verify(BearerToken(Authorization(req)).value).claims.role == Models.AdminRole
    ensures route in {ChangePassword, ChangeEmail} && Admit(route, req, verify, isEmail).Handled? ==>
              BearerToken(Authorization(req)).Some? && verify(BearerToken(Authorization(req)).value).Verified?
    ensures route in {SignUp, CheckToken, ResetPassword, Login, ForgotPassword} ==>
              Admit(route, req, verify, isEmail) == Handled(Validate(route, req, isEmail))
  {
  }

  /**
   * The password rule decides signup and reset-password through every instance of
   * `password`, and change-password through every instance of `new_password`.
   */
  lemma PasswordRuleApplies(req: Request, isEmail: string -> bool)
    ensures Validate(SignUp, req, isEmail) == [] <==>
              forall v :: v in Instances(req, "password") ==> AcceptablePassword(v)
    ensures Validate(ResetPassword, req, isEmail) == [] <==>
              forall v :: v in Instances(req, "password") ==> AcceptablePassword(v)
    ensures Validate(ChangePassword, req, isEmail) == [] <==>
              forall v :: v in Instances(req, "new_password") ==> AcceptablePassword(v)
  {
    assert Validate(SignUp, req, isEmail) == PasswordErrors(Instances(req, "password"), isEmail);
    assert Validate(ResetPassword, req, isEmail) == PasswordErrors(Instances(req, "password"), isEmail);
  }

  /** The current `password` that change-password carries in its body is not checked at all. */
  lemma CurrentPasswordUnchecked(req: Request, isEmail: string -> bool, current: string)
    ensures Validate(ChangePassword, req.(body := req.body["password" := current]), isEmail)
            == Validate(ChangePassword, req, isEmail)
  {
    var changed := req.(body := req.body["password" := current]);
    assert Present(changed.body, "new_password") == Present(req.body, "new_password");
    assert Instances(changed, "new_password") == Instances(req, "new_password");
  }

  /** A password given in the body only is judged by that one value. */
  lemma BodyPasswordAlone(req: Request, isEmail: string -> bool)
    requires OnlyInBody(req, "password")
    ensures Validate(SignUp, req, isEmail) == PasswordErrors([req.body["password"]], isEmail)
  {
    assert Instances(req, "password") == [req.body["password"]];
  }

  /** Change-role lets through exactly the requests whose every `role` is 'user' or 'admin'. */
  lemma RoleWhitelist(req: Request, isEmail: string -> bool)
    ensures Validate(ChangeRole, req, isEmail) == [] <==>
              forall v :: v in Instances(req, "role") ==> v == Models.UserRole || v == Models.AdminRole
  {
  }

  /** Login has no validator: whatever the request, its handler gets no errors. */
  lemma LoginUnvalidated(req: Request, verify: string -> Verdict, isEmail: string -> bool)
    ensures Admit(Login, req, verify, isEmail) == Handled([])
  {
  }
}
