/** Concrete runs of the /users validator chains. */
module UserRoutesExamples {

  import opened UserRoutes

  /** The chain over two instances: "abc123" passes and "x" fails the length and digit checks. */
  lemma TwoInstancesFailures(isEmail: string -> bool)
    ensures PasswordFailures(["abc123", "x"], isEmail) == [Length, Digit]
  {
    var vs := ["abc123", "x"];
    assert AcceptablePassword("abc123");
    assert !LongEnough("x") && HasLetter("x") && !HasDigit("x");
    assert vs[1..] == ["x"] && vs[1..][1..] == [];
    assert Failures(vs, Length, isEmail) == [Length];
    assert Failures(vs, Digit, isEmail) == [Digit];
    assert Failures(vs, Letter, isEmail) == [];
  }

  /**
   * A second instance is checked too: a good password in the body with `?password=x` in the
   * query is refused with the length and digit messages.
   */
  lemma QueryPasswordChecked(isEmail: string -> bool)
    ensures Validate(SignUp, Request(map["password" := "abc123"], map[], map[], map["password" := "x"]), isEmail)
            == Messages([Length, Digit])
  {
    var req := Request(map["password" := "abc123"], map[], map[], map["password" := "x"]);
    assert Instances(req, "password") == ["abc123", "x"];
    TwoInstancesFailures(isEmail);
  }

  /** The password of the registration example passes the rule. */
  lemma RegistrationPasswordAccepted()
    ensures AcceptablePassword("abc123")
  {
  }

  /** An empty password fails all three checks, in the chain's order. */
  lemma PasswordExamples(isEmail: string -> bool)
    ensures PasswordFailures([""], isEmail) == [Length, Digit, Letter]
  {
    var vs := [""];
    assert vs[1..] == [];
    assert Failures(vs, Length, isEmail) == [Length];
    assert Failures(vs, Digit, isEmail) == [Digit];
    assert Failures(vs, Letter, isEmail) == [Letter];
  }

  /** A long enough password with letters and no digit fails only the digit check. */
  lemma DigitlessPassword(isEmail: string -> bool)
    ensures PasswordFailures(["abcdef"], isEmail) == [Digit]
  {
    var vs := ["abcdef"];
    assert LongEnough("abcdef") && HasLetter("abcdef") && !HasDigit("abcdef");
    assert vs[1..] == [];
    assert Failures(vs, Length, isEmail) == [];
    assert Failures(vs, Digit, isEmail) == [Digit];
    assert Failures(vs, Letter, isEmail) == [];
  }

  /** A trailing variation selector is not counted: "abc12" followed by U+FE0F is too short. */
  lemma SelectorNotCounted(isEmail: string -> bool)
    ensures !LongEnough("abc12\U{FE0F}") && HasDigit("abc12\U{FE0F}") && HasLetter("abc12\U{FE0F}")
    ensures PasswordFailures(["abc12\U{FE0F}"], isEmail) == [Length]
  {
    var vs := ["abc12\U{FE0F}"];
    assert vs[1..] == [];
    assert Failures(vs, Length, isEmail) == [Length];
    assert Failures(vs, Digit, isEmail) == [];
    assert Failures(vs, Letter, isEmail) == [];
  }

  /** The same value in two locations is checked twice, and each failure is reported twice. */
  lemma RepeatedValueReportedTwice(isEmail: string -> bool)
    ensures Validate(SignUp, Request(map["password" := "x"], map[], map[], map["password" := "x"]), isEmail)
            == Messages([Length, Length, Digit, Digit])
  {
    var req := Request(map["password" := "x"], map[], map[], map["password" := "x"]);
    var vs := ["x", "x"];
    assert Instances(req, "password") == vs;
    assert !LongEnough("x") && HasLetter("x") && !HasDigit("x");
    assert vs[1..] == ["x"] && vs[1..][1..] == [];
    assert Failures(vs, Length, isEmail) == [Length, Length];
    assert Failures(vs, Digit, isEmail) == [Digit, Digit];
    assert Failures(vs, Letter, isEmail) == [];
  }
}
