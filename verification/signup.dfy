/** The sign-up page: field updates, the ordered form validator, the
    submit gate, and the password-strength meter. */
module SignUp {
  import opened Wrappers

  /** The four text inputs of the form. */
  datatype Form = Form(name: string, email: string, password: string, confirmPassword: string)

  const EmptyForm := Form("", "", "", "")

  /** The `name` attribute of each input, which `handleChange` dispatches on. */
  datatype Field = Name | Email | Password | ConfirmPassword

  /** `handleChange`: spread the previous form and overwrite the named field. */
  function HandleChange(f: Form, field: Field, value: string): (r: Form)
    ensures Get(r, field) == value
    ensures forall other :: other != field ==> Get(r, other) == Get(f, other)
  {
    match field
    case Name => f.(name := value)
    case Email => f.(email := value)
    case Password => f.(password := value)
    case ConfirmPassword => f.(confirmPassword := value)
  }

  function Get(f: Form, field: Field): string {
    match field
    case Name => f.name
    case Email => f.email
    case Password => f.password
    case ConfirmPassword => f.confirmPassword
  }

  // ---------------------------------------------------------------------
  // Ordered validation
  // ---------------------------------------------------------------------

  /** The four validation failures, in the order they are checked. */
  datatype Failure = MissingField | PasswordMismatch | PasswordTooShort | TermsNotAgreed

  const MinPasswordLength: nat := 8

  /** The message `validateForm` stores for each failure. */
  function Message(e: Failure): string {
    match e
    case MissingField => "Please fill in all fields"
    case PasswordMismatch => "Passwords do not match"
    case PasswordTooShort => "Password must be at least 8 characters long"
    case TermsNotAgreed => "You must agree to the terms and conditions"
  }

  /** One check of an ordered validator: whether it passed, and what to
      report when it did not. */
  datatype Check = Check(passes: bool, failure: Failure)

  /** Runs the checks in order and reports the first that fails. */
  function FirstFailure(checks: seq<Check>): (r: Option<Failure>)
    ensures r == None <==> forall i :: 0 <= i < |checks| ==> checks[i].passes
    ensures r.Some? ==> exists i :: 0 <= i < |checks| && !checks[i].passes
                          && checks[i].failure == r.value
                          && forall j :: 0 <= j < i ==> checks[j].passes
  {
    if |checks| == 0 then None
    else if !checks[0].passes then Some(checks[0].failure)
    else
      var rest := FirstFailure(checks[1..]);
      assert forall i :: 1 <= i < |checks| ==> checks[i] == checks[1..][i - 1];
      rest
  }

  predicate AllFilled(f: Form) {
    f.name != "" && f.email != "" && f.password != "" && f.confirmPassword != ""
  }

  /** The checks of `validateForm`, in source order. */
  function Checks(f: Form, agreeToTerms: bool): seq<Check> {
    [ Check(AllFilled(f), MissingField),
      Check(f.password == f.confirmPassword, PasswordMismatch),
      Check(|f.password| >= MinPasswordLength, PasswordTooShort),
      Check(agreeToTerms, TermsNotAgreed) ]
  }

  /** `validateForm`: None when the form may be submitted, otherwise the
      first failing check. */
  function Validate(f: Form, agreeToTerms: bool): (r: Option<Failure>)
    ensures r == None <==>
              AllFilled(f) && f.password == f.confirmPassword
              && |f.password| >= MinPasswordLength && agreeToTerms
  {
    var cs := Checks(f, agreeToTerms);
    assert cs[0].passes == AllFilled(f) && cs[1].passes == (f.password == f.confirmPassword);
    assert cs[2].passes == (|f.password| >= MinPasswordLength) && cs[3].passes == agreeToTerms;
    FirstFailure(cs)
  }

  /** Each failure is reported exactly when it is the earliest check that fails. */
  lemma ValidateReportsFirstFailure(f: Form, agree: bool)
    ensures Validate(f, agree) == Some(MissingField) <==> !AllFilled(f)
    ensures Validate(f, agree) == Some(PasswordMismatch) <==>
              AllFilled(f) && f.password != f.confirmPassword
    ensures Validate(f, agree) == Some(PasswordTooShort) <==>
              AllFilled(f) && f.password == f.confirmPassword && |f.password| < MinPasswordLength
    ensures Validate(f, agree) == Some(TermsNotAgreed) <==>
              AllFilled(f) && f.password == f.confirmPassword
              && |f.password| >= MinPasswordLength && !agree
  {
    var cs := Checks(f, agree);
    var r := Validate(f, agree);
    if r.Some? {
      var i :| 0 <= i < |cs| && !cs[i].passes && cs[i].failure == r.value
                && forall j :: 0 <= j < i ==> cs[j].passes;
      assert cs[0].failure == MissingField && cs[1].failure == PasswordMismatch;
      assert cs[2].failure == PasswordTooShort && cs[3].failure == TermsNotAgreed;
    }
  }

  /** With the browser's own `required` checks passed (every field filled,
      the terms box ticked), only the two password checks can stop the
      submission. */
  lemma NativeChecksLeavePasswordFailures(f: Form, agree: bool)
    requires AllFilled(f) && agree
    ensures Validate(f, agree) in {None, Some(PasswordMismatch), Some(PasswordTooShort)}
  {
    ValidateReportsFirstFailure(f, agree);
  }

  /** The error banner and the busy flag of the submit button. */
  datatype SubmitState = SubmitState(error: Option<string>, isLoading: bool)

  /** The synchronous part of `handleSubmit`: an invalid form stores the
      first failure's message and returns before touching the busy flag;
      a valid one clears the error and becomes busy. */
  function Submit(s: SubmitState, f: Form, agreeToTerms: bool): (r: SubmitState)
    ensures Validate(f, agreeToTerms).Some? ==>
              r.isLoading == s.isLoading && r.error == Some(Message(Validate(f, agreeToTerms).value))
    ensures Validate(f, agreeToTerms).None? ==> r == SubmitState(None, true)
    ensures r.isLoading != s.isLoading ==> r.isLoading && r.error == None
  {
    match Validate(f, agreeToTerms)
    case Some(e) => s.(error := Some(Message(e)))
    case None => SubmitState(None, true)
  }

  /** The four messages are distinct, so the banner names its failure. */
  lemma MessageInjective(a: Failure, b: Failure)
    ensures Message(a) == Message(b) <==> a == b
  {
  }

  /** The banner a submission leaves names the first check the form fails,
      and the form becomes busy exactly when every check passes (or it
      already was). */
  lemma SubmitReportsFirstFailure(s: SubmitState, f: Form, agree: bool)
    ensures Submit(s, f, agree).error == Some(Message(MissingField)) <==> !AllFilled(f)
    ensures Submit(s, f, agree).error == Some(Message(PasswordMismatch)) <==>
              AllFilled(f) && f.password != f.confirmPassword
    ensures Submit(s, f, agree).error == Some(Message(PasswordTooShort)) <==>
              AllFilled(f) && f.password == f.confirmPassword && |f.password| < MinPasswordLength
    ensures Submit(s, f, agree).error == Some(Message(TermsNotAgreed)) <==>
              AllFilled(f) && f.password == f.confirmPassword
              && |f.password| >= MinPasswordLength && !agree
    ensures Submit(s, f, agree).error == None <==>
              AllFilled(f) && f.password == f.confirmPassword
              && |f.password| >= MinPasswordLength && agree
    ensures Submit(s, f, agree).isLoading <==>
              s.isLoading || (AllFilled(f) && f.password == f.confirmPassword
                              && |f.password| >= MinPasswordLength && agree)
  {
    ValidateReportsFirstFailure(f, agree);
    match Validate(f, agree)
    case None =>
    case Some(e) =>
      MessageInjective(e, MissingField);
      MessageInjective(e, PasswordMismatch);
      MessageInjective(e, PasswordTooShort);
      MessageInjective(e, TermsNotAgreed);
  }

  // ---------------------------------------------------------------------
  // Password strength
  // ---------------------------------------------------------------------

  predicate IsUpper(c: char) { 'A' <= c <= 'Z' }
  predicate IsDigit(c: char) { '0' <= c <= '9' }
  predicate IsLower(c: char) { 'a' <= c <= 'z' }
  /** A character matched by the class `[^A-Za-z0-9]`. */
  predicate IsSymbol(c: char) { !IsUpper(c) && !IsLower(c) && !IsDigit(c) }

  /** A left-to-right scan standing for a one-character-class regex test. */
  function Scan(s: string, p: char -> bool): (b: bool)
    ensures b <==> exists i :: 0 <= i < |s| && p(s[i])
  {
    if |s| == 0 then false
    else if p(s[0]) then true
    else
      var b := Scan(s[1..], p);
      assert forall i :: 1 <= i < |s| ==> s[i] == s[1..][i - 1];
      b
  }

  /** `passwordStrength`: 0 for an empty password, otherwise one point per
      criterion met. */
  function Strength(password: string): (n: nat)
    ensures n <= 4
    ensures password == "" ==> n == 0
  {
    if password == "" then 0
    else
      (if |password| >= 8 then 1 else 0)
      + (if Scan(password, IsUpper) then 1 else 0)
      + (if Scan(password, IsDigit) then 1 else 0)
      + (if Scan(password, IsSymbol) then 1 else 0)
  }

  /** The four criteria the meter rewards, stated over the characters. */
  function Criteria(password: string): seq<bool> {
    [ |password| >= 8,
      exists i :: 0 <= i < |password| && IsUpper(password[i]),
      exists i :: 0 <= i < |password| && IsDigit(password[i]),
      exists i :: 0 <= i < |password| && IsSymbol(password[i]) ]
  }

  function CountTrue(bs: seq<bool>): (n: nat)
    ensures n <= |bs|
  {
    if |bs| == 0 then 0 else (if bs[0] then 1 else 0) + CountTrue(bs[1..])
  }

  lemma CountTrueOfFour(c: seq<bool>)
    requires |c| == 4
    ensures CountTrue(c) == (if c[0] then 1 else 0) + (if c[1] then 1 else 0)
                            + (if c[2] then 1 else 0) + (if c[3] then 1 else 0)
  {
    var c1, c2, c3 := c[1..], c[2..], c[3..];
    assert c1[1..] == c2 && c2[1..] == c3 && c3[1..] == [];
    assert CountTrue(c3) == (if c[3] then 1 else 0);
    assert CountTrue(c2) == (if c[2] then 1 else 0) + CountTrue(c3);
    assert CountTrue(c1) == (if c[1] then 1 else 0) + CountTrue(c2);
  }

  /** The empty-password shortcut is only an optimisation: the score is
      always the number of criteria met. */
  lemma StrengthCountsCriteria(password: string)
    ensures Strength(password) == CountTrue(Criteria(password))
  {
    var c := Criteria(password);
    CountTrueOfFour(c);
  }

  /** The score is 4 exactly when every criterion holds and 0 exactly when none does. */
  lemma StrengthExtremes(password: string)
    ensures Strength(password) == 4 <==> forall k :: 0 <= k < 4 ==> Criteria(password)[k]
    ensures Strength(password) == 0 <==> forall k :: 0 <= k < 4 ==> !Criteria(password)[k]
  {
    StrengthCountsCriteria(password);
    var c := Criteria(password);
    CountTrueOfFour(c);
  }

  /** `getStrengthText`: the label for a score; beyond 4 the source falls
      off the end of its `if` chain and returns `undefined`. */
  function StrengthText(strength: nat): (r: Option<string>)
    ensures r.Some? <==> strength <= 4
    ensures r == Some("") <==> strength == 0
  {
    if strength == 0 then Some("")
    else if strength == 1 then Some("Weak")
    else if strength == 2 then Some("Fair")
    else if strength == 3 then Some("Good")
    else if strength == 4 then Some("Strong")
    else None
  }

  /** `getStrengthColor`, with the same fall-through as `StrengthText`. */
  function StrengthColor(strength: nat): (r: Option<string>)
    ensures r.Some? <==> strength <= 4
    ensures r == Some("bg-muted") <==> strength == 0
    ensures r == Some("bg-green-500") <==> StrengthText(strength) == Some("Strong")
  {
    if strength == 0 then Some("bg-muted")
    else if strength == 1 then Some("bg-red-500")
    else if strength == 2 then Some("bg-orange-500")
    else if strength == 3 then Some("bg-yellow-500")
    else if strength == 4 then Some("bg-green-500")
    else None
  }

  /** The meter the password field renders below itself. */
  datatype Meter = Meter(widthPercent: nat, color: string, caption: string)

  /** The block under the password field: rendered only for a non-empty
      password, as a bar `strength * 25` % wide with the score's colour
      and label. */
  function MeterOf(password: string): (m: Option<Meter>)
    ensures m.None? <==> password == ""
    ensures m.Some? ==> m.value.widthPercent <= 100
    ensures m.Some? ==> (m.value.widthPercent == 0 <==> m.value.color == "bg-muted")
    ensures m.Some? ==> (m.value.caption == "" <==> m.value.color == "bg-muted")
    ensures m.Some? ==> (m.value.widthPercent == 100 <==> m.value.caption == "Strong")
  {
    if password == "" then None
    else
      var s := Strength(password);
      Some(Meter(s * 25, StrengthColor(s).GetOr(""), StrengthText(s).GetOr("")))
  }

  /** Both mappings are defined for every score a password can get, and
      distinct scores get distinct labels and colours. */
  lemma MappingsTotalOnScores(password: string, other: string)
    ensures StrengthText(Strength(password)).Some?
    ensures StrengthColor(Strength(password)).Some?
    ensures (StrengthText(Strength(password)) == StrengthText(Strength(other)))
            <==> (Strength(password) == Strength(other))
    ensures (StrengthColor(Strength(password)) == StrengthColor(Strength(other)))
            <==> (Strength(password) == Strength(other))
  {
  }

  /** The green check mark beside the confirmation field. */
  predicate ShowsMatchMark(f: Form)
    ensures ShowsMatchMark(f) ==> MeterOf(f.password).Some?
  {
    f.confirmPassword != "" && f.password == f.confirmPassword
  }

  /** A form that passes validation always shows the match mark and earns
      at least the length point of the meter. */
  lemma ValidFormShowsMatchAndLength(f: Form, agree: bool)
    requires Validate(f, agree) == None
    ensures ShowsMatchMark(f)
    ensures Strength(f.password) >= 1
    ensures MeterOf(f.password).Some? && MeterOf(f.password).value.widthPercent >= 25
  {
  }
}
