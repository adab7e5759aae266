/**
 * The sign-up server action: `createAccountSchema` (four trimmed string
 * fields, then two fatal uniqueness lookups and the password-match rule, in
 * declaration order) and `createAccount` (validate, hash, insert, redirect).
 */
module CreateAccount {

  import opened Wrappers
  import opened JsString
  import opened Zod
  import opened Store
  import opened Navigation

  const USERNAME_MIN_LENGTH := 5
  const PASSWORD_MIN_LENGTH := 10
  const ZOD_DOMAIN := "@zod.com"

  const EMAIL_INVALID := "Please enter a valid email address."
  const EMAIL_DOMAIN := "Only @zod.com email addresses are allowed."
  const USERNAME_INVALID_TYPE := "Username must be a string."
  const USERNAME_TOO_SHORT := "Username should be at least 5 characters long."
  const PASSWORD_TOO_SHORT := "Password should be at least 10 characters long."
  const PASSWORD_NO_DIGIT := "Password should contain at least one number (0-9)."
  const EMAIL_TAKEN := "This email is already taken."
  const USERNAME_TAKEN := "This username is already taken."
  const PASSWORDS_DIFFER := "Both passwords should be the same!"

  /** The four entries of the submitted form. */
  datatype AccountForm = AccountForm(email: FormValue, username: FormValue, password: FormValue, confirmPassword: FormValue)

  /** The parsed, trimmed payload. */
  datatype AccountData = AccountData(email: string, username: string, password: string, confirmPassword: string)

  /** The lookahead `(?=.*\d)` tried at the start of `s`: `.` consumes non-terminators until a digit follows. */
  predicate LookaheadDigit(s: string)
  {
    s != [] && (IsDigit(s[0]) || (!IsLineTerminator(s[0]) && LookaheadDigit(s[1..])))
  }

  /** `.*$`: every remaining character is one `.` accepts. */
  predicate DotsToEnd(s: string)
  {
    s == [] || (!IsLineTerminator(s[0]) && DotsToEnd(s[1..]))
  }

  /**
   * `PASSWORD_REGEX = /^(?=.*\d).{10,}$/` tried at position 0 (the only place
   * `^` allows without the `m` flag): the lookahead, then at least ten `.`
   * reaching the end of the input.
   */
  predicate MatchesPasswordRegex(s: string)
  {
    LookaheadDigit(s) && |s| >= 10 && DotsToEnd(s)
  }

  /** `checkPasswords`: the trimmed password and confirmation are the same string. */
  predicate CheckPasswords(d: AccountData)
  {
    d.password == d.confirmPassword
  }

  // The field rules, each on the trimmed value.

  predicate EmailAccepted(t: string, isEmail: string -> bool)
  {
    isEmail(t) && Includes(t, ZOD_DOMAIN)
  }

  predicate UsernameAccepted(t: string)
  {
    |t| >= USERNAME_MIN_LENGTH
  }

  predicate PasswordAccepted(t: string)
  {
    |t| >= PASSWORD_MIN_LENGTH && MatchesPasswordRegex(t)
  }

  predicate ConfirmAccepted(t: string)
  {
    |t| >= PASSWORD_MIN_LENGTH
  }

  /** `email`: `.email(...)`, then `.refine(includes "@zod.com")`, which runs even after a failed shape check. */
  function EmailFailures(isEmail: string -> bool, t: string): seq<string>
  {
    (if isEmail(t) then [] else [EMAIL_INVALID]) + (if Includes(t, ZOD_DOMAIN) then [] else [EMAIL_DOMAIN])
  }

  function UsernameFailures(t: string): seq<string>
  {
    if UsernameAccepted(t) then [] else [USERNAME_TOO_SHORT]
  }

  /** `password`: `.min(10)`, `.regex(PASSWORD_REGEX)`; both checks run, so a short password gets both messages. */
  function PasswordFailures(t: string): seq<string>
  {
    (if |t| >= PASSWORD_MIN_LENGTH then [] else [PASSWORD_TOO_SHORT])
    + (if MatchesPasswordRegex(t) then [] else [PASSWORD_NO_DIGIT])
  }

  function ConfirmFailures(t: string): seq<string>
  {
    if ConfirmAccepted(t) then [] else [PASSWORD_TOO_SHORT]
  }

  function EmailField(v: FormValue, isEmail: string -> bool): Stage<string>
  {
    CheckedString("email", v, None, t => EmailFailures(isEmail, t))
  }

  function UsernameField(v: FormValue): Stage<string>
  {
    CheckedString("username", v, Some(USERNAME_INVALID_TYPE), UsernameFailures)
  }

  function PasswordField(v: FormValue): Stage<string>
  {
    CheckedString("password", v, None, PasswordFailures)
  }

  function ConfirmField(v: FormValue): Stage<string>
  {
    CheckedString("confirm_password", v, None, ConfirmFailures)
  }

  /** `z.object({...})`: every field is parsed; one wrong type aborts the object. */
  function ParseFields(form: AccountForm, isEmail: string -> bool): Stage<AccountData>
  {
    var e := EmailField(form.email, isEmail);
    var u := UsernameField(form.username);
    var p := PasswordField(form.password);
    var c := ConfirmField(form.confirmPassword);
    var issues := e.issues + (u.issues + (p.issues + c.issues));
    if e.Running? && u.Running? && p.Running? && c.Running? then
      Running(issues, AccountData(e.value, u.value, p.value, c.value))
    else
      Aborted(issues)
  }

  function UniqueEmailRule(users: map<int, User>, d: AccountData): Option<Issue>
  {
    Rule(!EmailTaken(users, d.email), "email", EMAIL_TAKEN)
  }

  function UniqueUsernameRule(users: map<int, User>, d: AccountData): Option<Issue>
  {
    Rule(!UsernameTaken(users, d.username), "username", USERNAME_TAKEN)
  }

  /** `.superRefine` on `email`: a row with that e-mail is a fatal issue. */
  function EmailLookup(st: Stage<AccountData>, users: map<int, User>): Stage<AccountData>
  {
    Refine(st, d => UniqueEmailRule(users, d), true)
  }

  /** `.superRefine` on `username`: a row with that username is a fatal issue. */
  function UsernameLookup(st: Stage<AccountData>, users: map<int, User>): Stage<AccountData>
  {
    Refine(st, d => UniqueUsernameRule(users, d), true)
  }

  /** `.refine(checkPasswords, ...)`: a non-fatal issue on `confirm_password`. */
  function PasswordsMatch(st: Stage<AccountData>): Stage<AccountData>
  {
    Refine(st, d => Rule(CheckPasswords(d), "confirm_password", PASSWORDS_DIFFER), false)
  }

  /** `createAccountSchema.spa(data)` against the rows in `users`: fields, then the three refinements in declaration order. */
  function CreateAccountSchema(form: AccountForm, users: map<int, User>, isEmail: string -> bool): SafeParse<AccountData>
  {
    Finish(PasswordsMatch(UsernameLookup(EmailLookup(ParseFields(form, isEmail), users), users)))
  }

  // A flat restatement of the schema, field by field, used to state what it reports.

  predicate AllText(form: AccountForm)
  {
    form.email.Text? && form.username.Text? && form.password.Text? && form.confirmPassword.Text?
  }

  function Trimmed(form: AccountForm): AccountData
    requires AllText(form)
  {
    AccountData(Trim(form.email.text), Trim(form.username.text), Trim(form.password.text), Trim(form.confirmPassword.text))
  }

  function EmailRuleMessages(v: FormValue, isEmail: string -> bool): seq<string>
  {
    if v.Text? then EmailFailures(isEmail, Trim(v.text)) else TypeMessages(v, None)
  }

  function UsernameRuleMessages(v: FormValue): seq<string>
  {
    if v.Text? then UsernameFailures(Trim(v.text)) else TypeMessages(v, Some(USERNAME_INVALID_TYPE))
  }

  function PasswordRuleMessages(v: FormValue): seq<string>
  {
    if v.Text? then PasswordFailures(Trim(v.text)) else TypeMessages(v, None)
  }

  function ConfirmRuleMessages(v: FormValue): seq<string>
  {
    if v.Text? then ConfirmFailures(Trim(v.text)) else TypeMessages(v, None)
  }

  /** The e-mail lookup raises its fatal issue. */
  predicate EmailTakenFires(form: AccountForm, users: map<int, User>)
  {
    AllText(form) && EmailTaken(users, Trimmed(form).email)
  }

  /** The username lookup runs (the e-mail was free) and raises its fatal issue. */
  predicate UsernameTakenFires(form: AccountForm, users: map<int, User>)
  {
    AllText(form) && !EmailTaken(users, Trimmed(form).email) && UsernameTaken(users, Trimmed(form).username)
  }

  /** Both lookups pass and the password-match refinement raises its issue. */
  predicate MismatchFires(form: AccountForm, users: map<int, User>)
  {
    && AllText(form)
    && !EmailTaken(users, Trimmed(form).email)
    && !UsernameTaken(users, Trimmed(form).username)
    && !CheckPasswords(Trimmed(form))
  }

  /** The issues the refinements add after the fields: at most one, the first that fires. */
  function RefinementIssues(form: AccountForm, users: map<int, User>): seq<Issue>
  {
    if EmailTakenFires(form, users) then [Issue("email", EMAIL_TAKEN)]
    else if UsernameTakenFires(form, users) then [Issue("username", USERNAME_TAKEN)]
    else if MismatchFires(form, users) then [Issue("confirm_password", PASSWORDS_DIFFER)]
    else []
  }

  lemma EmailFieldStage(v: FormValue, isEmail: string -> bool)
    ensures EmailField(v, isEmail).Running? <==> v.Text?
    ensures v.Text? ==> EmailField(v, isEmail).value == Trim(v.text)
    ensures EmailField(v, isEmail).issues == OnField("email", EmailRuleMessages(v, isEmail))
  {
  }

  lemma UsernameFieldStage(v: FormValue)
    ensures UsernameField(v).Running? <==> v.Text?
    ensures v.Text? ==> UsernameField(v).value == Trim(v.text)
    ensures UsernameField(v).issues == OnField("username", UsernameRuleMessages(v))
  {
  }

  lemma PasswordFieldStage(v: FormValue)
    ensures PasswordField(v).Running? <==> v.Text?
    ensures v.Text? ==> PasswordField(v).value == Trim(v.text)
    ensures PasswordField(v).issues == OnField("password", PasswordRuleMessages(v))
  {
  }

  lemma ConfirmFieldStage(v: FormValue)
    ensures ConfirmField(v).Running? <==> v.Text?
    ensures v.Text? ==> ConfirmField(v).value == Trim(v.text)
    ensures ConfirmField(v).issues == OnField("confirm_password", ConfirmRuleMessages(v))
  {
  }

  /** The object parse keeps going exactly when all four entries are text, with the trimmed payload. */
  lemma FieldsRunning(form: AccountForm, isEmail: string -> bool)
    ensures ParseFields(form, isEmail).Running? <==> AllText(form)
    ensures AllText(form) ==> ParseFields(form, isEmail) == Running(ParseFields(form, isEmail).issues, Trimmed(form))
  {
    EmailFieldStage(form.email, isEmail);
    UsernameFieldStage(form.username);
    PasswordFieldStage(form.password);
    ConfirmFieldStage(form.confirmPassword);
  }

  /** The issues the field rules raise, field after field. */
  function FieldIssues(form: AccountForm, isEmail: string -> bool): seq<Issue>
  {
    OnField("email", EmailRuleMessages(form.email, isEmail))
    + (OnField("username", UsernameRuleMessages(form.username))
    + (OnField("password", PasswordRuleMessages(form.password))
    + OnField("confirm_password", ConfirmRuleMessages(form.confirmPassword))))
  }

  lemma FieldsIssues(form: AccountForm, isEmail: string -> bool)
    ensures ParseFields(form, isEmail).issues == FieldIssues(form, isEmail)
  {
    EmailFieldStage(form.email, isEmail);
    UsernameFieldStage(form.username);
    PasswordFieldStage(form.password);
    ConfirmFieldStage(form.confirmPassword);
  }

  lemma SchemaStages(form: AccountForm, users: map<int, User>, isEmail: string -> bool)
    ensures var fields := ParseFields(form, isEmail);
      var st := PasswordsMatch(UsernameLookup(EmailLookup(fields, users), users));
      && st.issues == fields.issues + RefinementIssues(form, users)
      && (st.Running? <==> AllText(form) && !EmailTakenFires(form, users) && !UsernameTakenFires(form, users))
      && (st.Running? ==> st.value == Trimmed(form))
  {
    FieldsRunning(form, isEmail);
    var fields := ParseFields(form, isEmail);
    var s1 := EmailLookup(fields, users);
    var s2 := UsernameLookup(s1, users);
    var s3 := PasswordsMatch(s2);
    if !AllText(form) {
      assert s1 == fields && s2 == fields && s3 == fields;
    } else {
      var d := Trimmed(form);
      if EmailTaken(users, d.email) {
        assert s1 == Aborted(fields.issues + [Issue("email", EMAIL_TAKEN)]);
        assert s3 == s2 == s1;
      } else if UsernameTaken(users, d.username) {
        assert s1 == fields;
        assert s2 == Aborted(fields.issues + [Issue("username", USERNAME_TAKEN)]);
        assert s3 == s2;
      } else {
        assert s2 == s1 == fields;
      }
    }
  }

  /** The issues `createAccountSchema` ends with: the field issues, then the refinement issue, if any. */
  function SchemaIssues(form: AccountForm, users: map<int, User>, isEmail: string -> bool): seq<Issue>
  {
    FieldIssues(form, isEmail) + RefinementIssues(form, users)
  }

  lemma SchemaResult(form: AccountForm, users: map<int, User>, isEmail: string -> bool)
    ensures var r := CreateAccountSchema(form, users, isEmail);
      && (r.Success? <==> AllText(form) && !EmailTakenFires(form, users) && !UsernameTakenFires(form, users)
                          && SchemaIssues(form, users, isEmail) == [])
      && (r.Success? ==> r.data == Trimmed(form))
      && (r.Failure? ==> r.error == Flatten(SchemaIssues(form, users, isEmail)))
  {
    FieldsRunning(form, isEmail);
    FieldsIssues(form, isEmail);
    SchemaStages(form, users, isEmail);
  }

  /** The field rules' messages on `field`. */
  function RuleMessagesOn(form: AccountForm, isEmail: string -> bool, field: string): seq<string>
  {
    if field == "email" then EmailRuleMessages(form.email, isEmail)
    else if field == "username" then UsernameRuleMessages(form.username)
    else if field == "password" then PasswordRuleMessages(form.password)
    else if field == "confirm_password" then ConfirmRuleMessages(form.confirmPassword)
    else []
  }

  /** The refinement message on `field`, if that refinement fired. */
  function RefinementMessagesOn(form: AccountForm, users: map<int, User>, field: string): seq<string>
  {
    if field == "email" && EmailTakenFires(form, users) then [EMAIL_TAKEN]
    else if field == "username" && UsernameTakenFires(form, users) then [USERNAME_TAKEN]
    else if field == "confirm_password" && MismatchFires(form, users) then [PASSWORDS_DIFFER]
    else []
  }

  lemma SchemaIssuesOn(form: AccountForm, users: map<int, User>, isEmail: string -> bool, field: string)
    ensures MessagesFor(SchemaIssues(form, users, isEmail), field) ==
      RuleMessagesOn(form, isEmail, field) + MessagesFor(RefinementIssues(form, users), field)
  {
    MessagesForAppend(FieldIssues(form, isEmail), RefinementIssues(form, users), field);
    MessagesForFourFields("email", EmailRuleMessages(form.email, isEmail), "username", UsernameRuleMessages(form.username),
      "password", PasswordRuleMessages(form.password), "confirm_password", ConfirmRuleMessages(form.confirmPassword), field);
  }

  lemma RefinementIssuesOn(form: AccountForm, users: map<int, User>, field: string)
    ensures MessagesFor(RefinementIssues(form, users), field) == RefinementMessagesOn(form, users, field)
  {
    if EmailTakenFires(form, users) {
      MessagesForSingle(Issue("email", EMAIL_TAKEN), field);
    } else if UsernameTakenFires(form, users) {
      MessagesForSingle(Issue("username", USERNAME_TAKEN), field);
    } else if MismatchFires(form, users) {
      MessagesForSingle(Issue("confirm_password", PASSWORDS_DIFFER), field);
    }
  }

  /** What a failed sign-up reports on one field: its rules' messages, then its refinement message. */
  lemma ErrorsOnField(form: AccountForm, users: map<int, User>, isEmail: string -> bool, field: string)
    ensures var r := CreateAccountSchema(form, users, isEmail);
      r.Failure? ==>
        && r.error.formErrors == []
        && ErrorsOn(r.error, field) == RuleMessagesOn(form, isEmail, field) + RefinementMessagesOn(form, users, field)
        && (field in r.error.fieldErrors ==> ErrorsOn(r.error, field) != [])
  {
    var r := CreateAccountSchema(form, users, isEmail);
    SchemaResult(form, users, isEmail);
    if r.Failure? {
      var issues := SchemaIssues(form, users, isEmail);
      FlattenMeaning(issues, field);
      SchemaIssuesOn(form, users, isEmail, field);
      RefinementIssuesOn(form, users, field);
    }
  }

  /**
   * Sign-up data is accepted exactly when all four entries are text and, once
   * trimmed, pass every field rule, name a free e-mail and a free username, and
   * agree on the password; the parsed payload is then the trimmed entries.
   */
  lemma CreateAccountAccepted(form: AccountForm, users: map<int, User>, isEmail: string -> bool)
    ensures CreateAccountSchema(form, users, isEmail).Success? <==>
      && AllText(form)
      && EmailAccepted(Trimmed(form).email, isEmail)
      && UsernameAccepted(Trimmed(form).username)
      && PasswordAccepted(Trimmed(form).password)
      && ConfirmAccepted(Trimmed(form).confirmPassword)
      && !EmailTaken(users, Trimmed(form).email)
      && !UsernameTaken(users, Trimmed(form).username)
      && CheckPasswords(Trimmed(form))
    ensures CreateAccountSchema(form, users, isEmail).Success? ==>
      CreateAccountSchema(form, users, isEmail).data == Trimmed(form)
  {
    SchemaResult(form, users, isEmail);
    var e := EmailRuleMessages(form.email, isEmail);
    var u := UsernameRuleMessages(form.username);
    var p := PasswordRuleMessages(form.password);
    var c := ConfirmRuleMessages(form.confirmPassword);
    assert |SchemaIssues(form, users, isEmail)| == |e| + |u| + |p| + |c| + |RefinementIssues(form, users)|;
  }

  /**
   * On failure the record has no form-level message and lists, per field, the
   * field rules' messages followed by the refinement message that fired on it;
   * no other field appears.
   */
  lemma CreateAccountErrors(form: AccountForm, users: map<int, User>, isEmail: string -> bool)
    ensures var r := CreateAccountSchema(form, users, isEmail);
      r.Failure? ==>
        && r.error.formErrors == []
        && ErrorsOn(r.error, "email") ==
             EmailRuleMessages(form.email, isEmail) + (if EmailTakenFires(form, users) then [EMAIL_TAKEN] else [])
        && ErrorsOn(r.error, "username") ==
             UsernameRuleMessages(form.username) + (if UsernameTakenFires(form, users) then [USERNAME_TAKEN] else [])
        && ErrorsOn(r.error, "password") == PasswordRuleMessages(form.password)
        && ErrorsOn(r.error, "confirm_password") ==
             ConfirmRuleMessages(form.confirmPassword) + (if MismatchFires(form, users) then [PASSWORDS_DIFFER] else [])
        && (forall f :: f in r.error.fieldErrors ==> f in {"email", "username", "password", "confirm_password"})
  {
    SchemaResult(form, users, isEmail);
    ErrorsOnField(form, users, isEmail, "email");
    ErrorsOnField(form, users, isEmail, "username");
    ErrorsOnField(form, users, isEmail, "password");
    ErrorsOnField(form, users, isEmail, "confirm_password");
    var r := CreateAccountSchema(form, users, isEmail);
    if r.Failure? {
      forall f | f in r.error.fieldErrors
        ensures f in {"email", "username", "password", "confirm_password"}
      {
        ErrorsOnField(form, users, isEmail, f);
      }
    }
  }

  /** zod's default type messages are 30 and 32 characters long. */
  lemma TypeMessageLengths()
    ensures |TypeMessage(None, "null")| == 30 && |TypeMessage(None, "object")| == 32
  {
  }

  lemma EmailTakenIsNoRuleMessage(v: FormValue, isEmail: string -> bool)
    ensures EMAIL_TAKEN !in EmailRuleMessages(v, isEmail)
  {
    if v.Text? {
      EmailTakenIsNoFailure(isEmail, Trim(v.text));
    } else {
      TypeMessageLengths();
      assert |EMAIL_TAKEN| == 28;
    }
  }

  lemma EmailTakenIsNoFailure(isEmail: string -> bool, t: string)
    ensures EMAIL_TAKEN !in EmailFailures(isEmail, t)
  {
    assert |EMAIL_TAKEN| == 28 && |EMAIL_INVALID| == 35 && |EMAIL_DOMAIN| == 42;
    var m1 := if isEmail(t) then [] else [EMAIL_INVALID];
    var m2 := if Includes(t, ZOD_DOMAIN) then [] else [EMAIL_DOMAIN];
    assert EmailFailures(isEmail, t) == m1 + m2;
    assert EMAIL_TAKEN !in m1 && EMAIL_TAKEN !in m2;
  }

  lemma UsernameTakenIsNoRuleMessage(v: FormValue)
    ensures USERNAME_TAKEN !in UsernameRuleMessages(v)
  {
    assert |USERNAME_TAKEN| == 31;
    if v.Text? {
      assert |USERNAME_TOO_SHORT| == 46;
    } else {
      assert |USERNAME_INVALID_TYPE| == 26;
    }
  }

  lemma MismatchIsNoRuleMessage(v: FormValue)
    ensures PASSWORDS_DIFFER !in ConfirmRuleMessages(v)
  {
    assert |PASSWORDS_DIFFER| == 34;
    if v.Text? {
      assert |PASSWORD_TOO_SHORT| == 47;
    } else {
      TypeMessageLengths();
    }
  }

  /** No field rule uses the refinements' messages. */
  lemma RuleMessagesAreNotRefinementMessages(form: AccountForm, isEmail: string -> bool)
    ensures EMAIL_TAKEN !in EmailRuleMessages(form.email, isEmail)
    ensures USERNAME_TAKEN !in UsernameRuleMessages(form.username)
    ensures PASSWORDS_DIFFER !in ConfirmRuleMessages(form.confirmPassword)
  {
    EmailTakenIsNoRuleMessage(form.email, isEmail);
    UsernameTakenIsNoRuleMessage(form.username);
    MismatchIsNoRuleMessage(form.confirmPassword);
  }

  /** A taken e-mail is reported on `email`; being fatal, it keeps the username lookup and the password match from reporting. */
  lemma EmailTakenIsFatal(form: AccountForm, users: map<int, User>, isEmail: string -> bool)
    requires AllText(form) && EmailTaken(users, Trimmed(form).email)
    ensures var r := CreateAccountSchema(form, users, isEmail);
      && r.Failure?
      && EMAIL_TAKEN in ErrorsOn(r.error, "email")
      && USERNAME_TAKEN !in ErrorsOn(r.error, "username")
      && PASSWORDS_DIFFER !in ErrorsOn(r.error, "confirm_password")
  {
    CreateAccountAccepted(form, users, isEmail);
    CreateAccountErrors(form, users, isEmail);
    RuleMessagesAreNotRefinementMessages(form, isEmail);
    var r := CreateAccountSchema(form, users, isEmail);
    assert EmailTakenFires(form, users) && !UsernameTakenFires(form, users) && !MismatchFires(form, users);
    assert ErrorsOn(r.error, "email") == EmailRuleMessages(form.email, isEmail) + [EMAIL_TAKEN];
    assert ErrorsOn(r.error, "username") == UsernameRuleMessages(form.username);
    assert ErrorsOn(r.error, "confirm_password") == ConfirmRuleMessages(form.confirmPassword);
  }

  /** With the e-mail free, a taken username is reported on `username`, fatally: the password match does not report. */
  lemma UsernameTakenIsFatal(form: AccountForm, users: map<int, User>, isEmail: string -> bool)
    requires AllText(form) && !EmailTaken(users, Trimmed(form).email) && UsernameTaken(users, Trimmed(form).username)
    ensures var r := CreateAccountSchema(form, users, isEmail);
      && r.Failure?
      && USERNAME_TAKEN in ErrorsOn(r.error, "username")
      && EMAIL_TAKEN !in ErrorsOn(r.error, "email")
      && PASSWORDS_DIFFER !in ErrorsOn(r.error, "confirm_password")
  {
    CreateAccountAccepted(form, users, isEmail);
    CreateAccountErrors(form, users, isEmail);
    RuleMessagesAreNotRefinementMessages(form, isEmail);
    var r := CreateAccountSchema(form, users, isEmail);
    assert !EmailTakenFires(form, users) && UsernameTakenFires(form, users) && !MismatchFires(form, users);
    assert ErrorsOn(r.error, "email") == EmailRuleMessages(form.email, isEmail);
    assert ErrorsOn(r.error, "username") == UsernameRuleMessages(form.username) + [USERNAME_TAKEN];
    assert ErrorsOn(r.error, "confirm_password") == ConfirmRuleMessages(form.confirmPassword);
  }

  /**
   * With both lookups passed, differing trimmed passwords are reported on
   * `confirm_password`, whatever the field rules said.
   */
  lemma MismatchReported(form: AccountForm, users: map<int, User>, isEmail: string -> bool)
    requires AllText(form) && !EmailTaken(users, Trimmed(form).email) && !UsernameTaken(users, Trimmed(form).username)
    requires Trimmed(form).password != Trimmed(form).confirmPassword
    ensures var r := CreateAccountSchema(form, users, isEmail);
      r.Failure? && PASSWORDS_DIFFER in ErrorsOn(r.error, "confirm_password")
  {
    CreateAccountAccepted(form, users, isEmail);
    CreateAccountErrors(form, users, isEmail);
  }

  /**
   * A failed e-mail rule is reported on `email` whatever the other entries
   * hold; the `@zod.com` refinement runs even after a failed shape check.
   */
  lemma EmailRulesReported(form: AccountForm, users: map<int, User>, isEmail: string -> bool)
    requires form.email.Text?
    ensures var t := Trim(form.email.text);
      var r := CreateAccountSchema(form, users, isEmail);
      && (!isEmail(t) ==> r.Failure? && EMAIL_INVALID in ErrorsOn(r.error, "email"))
      && (!Includes(t, ZOD_DOMAIN) ==> r.Failure? && EMAIL_DOMAIN in ErrorsOn(r.error, "email"))
  {
    CreateAccountAccepted(form, users, isEmail);
    CreateAccountErrors(form, users, isEmail);
    var t := Trim(form.email.text);
    var r := CreateAccountSchema(form, users, isEmail);
    var m1 := if isEmail(t) then [] else [EMAIL_INVALID];
    var m2 := if Includes(t, ZOD_DOMAIN) then [] else [EMAIL_DOMAIN];
    if r.Failure? {
      assert ErrorsOn(r.error, "email") == m1 + m2 + (if EmailTakenFires(form, users) then [EMAIL_TAKEN] else []);
    }
  }

  /** A trimmed username shorter than five characters is reported on `username` whatever the other entries hold. */
  lemma UsernameRuleReported(form: AccountForm, users: map<int, User>, isEmail: string -> bool)
    requires form.username.Text? && |Trim(form.username.text)| < USERNAME_MIN_LENGTH
    ensures var r := CreateAccountSchema(form, users, isEmail);
      r.Failure? && USERNAME_TOO_SHORT in ErrorsOn(r.error, "username")
  {
    CreateAccountAccepted(form, users, isEmail);
    CreateAccountErrors(form, users, isEmail);
    var r := CreateAccountSchema(form, users, isEmail);
    assert ErrorsOn(r.error, "username") ==
      [USERNAME_TOO_SHORT] + (if UsernameTakenFires(form, users) then [USERNAME_TAKEN] else []);
  }

  /**
   * The password rules are reported on `password` whatever the other entries
   * hold: a password without a digit gets the digit message, and one shorter
   * than ten characters gets both messages, since the regular expression also
   * demands ten characters.
   */
  lemma PasswordRulesReported(form: AccountForm, users: map<int, User>, isEmail: string -> bool)
    requires form.password.Text?
    ensures var t := Trim(form.password.text);
      var r := CreateAccountSchema(form, users, isEmail);
      && (!HasDigit(t) ==> r.Failure? && PASSWORD_NO_DIGIT in ErrorsOn(r.error, "password"))
      && (|t| < PASSWORD_MIN_LENGTH ==> r.Failure? && ErrorsOn(r.error, "password") == [PASSWORD_TOO_SHORT, PASSWORD_NO_DIGIT])
  {
    var t := Trim(form.password.text);
    PasswordRegexMeaning(t);
    PasswordAcceptedMeaning(t);
    CreateAccountAccepted(form, users, isEmail);
    CreateAccountErrors(form, users, isEmail);
    var r := CreateAccountSchema(form, users, isEmail);
    var m1 := if |t| >= PASSWORD_MIN_LENGTH then [] else [PASSWORD_TOO_SHORT];
    var m2 := if MatchesPasswordRegex(t) then [] else [PASSWORD_NO_DIGIT];
    if r.Failure? {
      assert ErrorsOn(r.error, "password") == m1 + m2;
    }
  }

  /** A trimmed confirmation shorter than ten characters is reported on `confirm_password` whatever the other entries hold. */
  lemma ConfirmRuleReported(form: AccountForm, users: map<int, User>, isEmail: string -> bool)
    requires form.confirmPassword.Text? && |Trim(form.confirmPassword.text)| < PASSWORD_MIN_LENGTH
    ensures var r := CreateAccountSchema(form, users, isEmail);
      r.Failure? && PASSWORD_TOO_SHORT in ErrorsOn(r.error, "confirm_password")
  {
    CreateAccountAccepted(form, users, isEmail);
    CreateAccountErrors(form, users, isEmail);
    var r := CreateAccountSchema(form, users, isEmail);
    assert ErrorsOn(r.error, "confirm_password") ==
      [PASSWORD_TOO_SHORT] + (if MismatchFires(form, users) then [PASSWORDS_DIFFER] else []);
  }

  /**
   * An entry that is not text aborts the object parse: the result fails, no
   * lookup or password match reports, and the rows in the store make no difference.
   */
  lemma WrongTypeSkipsRefinements(form: AccountForm, users: map<int, User>, others: map<int, User>, isEmail: string -> bool)
    requires !AllText(form)
    ensures CreateAccountSchema(form, users, isEmail).Failure?
    ensures CreateAccountSchema(form, users, isEmail) == CreateAccountSchema(form, others, isEmail)
    ensures EMAIL_TAKEN !in ErrorsOn(CreateAccountSchema(form, users, isEmail).error, "email")
  {
    SchemaResult(form, users, isEmail);
    SchemaResult(form, others, isEmail);
    assert !EmailTakenFires(form, users) && !UsernameTakenFires(form, users) && !MismatchFires(form, users);
    assert !EmailTakenFires(form, others) && !UsernameTakenFires(form, others) && !MismatchFires(form, others);
    assert RefinementIssues(form, users) == RefinementIssues(form, others) == [];
    assert SchemaIssues(form, users, isEmail) == SchemaIssues(form, others, isEmail);
    CreateAccountErrors(form, users, isEmail);
    RuleMessagesAreNotRefinementMessages(form, isEmail);
  }

  /**
   * Submitting accepted sign-up data again, once its row is in the store, is
   * refused with the e-mail reported taken: no second row can follow.
   */
  lemma SecondSignUpRejected(form: AccountForm, users: map<int, User>, isEmail: string -> bool, id: int, passwordHash: string)
    requires CreateAccountSchema(form, users, isEmail).Success?
    ensures var d := CreateAccountSchema(form, users, isEmail).data;
      var after := users[id := User(d.email, d.username, passwordHash)];
      var r := CreateAccountSchema(form, after, isEmail);
      r.Failure? && EMAIL_TAKEN in ErrorsOn(r.error, "email")
  {
    CreateAccountAccepted(form, users, isEmail);
    var d := CreateAccountSchema(form, users, isEmail).data;
    var after := users[id := User(d.email, d.username, passwordHash)];
    assert id in after && after[id].email == Trimmed(form).email;
    EmailTakenIsFatal(form, after, isEmail);
  }

  /** `.*$` accepts exactly the strings without a line terminator. */
  lemma {:induction false} DotsToEndMeaning(s: string)
    ensures DotsToEnd(s) <==> NoLineTerminator(s)
  {
    if s != [] {
      DotsToEndMeaning(s[1..]);
      assert forall k :: 1 <= k < |s| ==> s[k] == s[1..][k - 1];
    }
  }

  /** On a string without line terminators the lookahead `(?=.*\d)` holds exactly when some digit occurs. */
  lemma {:induction false} LookaheadDigitMeaning(s: string)
    requires NoLineTerminator(s)
    ensures LookaheadDigit(s) <==> HasDigit(s)
  {
    if s != [] {
      assert NoLineTerminator(s[1..]) by {
        forall k | 0 <= k < |s[1..]| ensures !IsLineTerminator(s[1..][k]) {
          assert s[1..][k] == s[k + 1];
        }
      }
      LookaheadDigitMeaning(s[1..]);
      if HasDigit(s) && !IsDigit(s[0]) {
        var k :| 0 <= k < |s| && IsDigit(s[k]);
        assert s[1..][k - 1] == s[k];
      }
      if HasDigit(s[1..]) {
        var k :| 0 <= k < |s[1..]| && IsDigit(s[1..][k]);
        assert s[k + 1] == s[1..][k];
      }
    }
  }

  /**
   * `PASSWORD_REGEX` accepts a string exactly when it has at least ten
   * characters, none of them a line terminator, and at least one ASCII digit.
   */
  lemma PasswordRegexMeaning(s: string)
    ensures MatchesPasswordRegex(s) <==> |s| >= 10 && NoLineTerminator(s) && HasDigit(s)
  {
    DotsToEndMeaning(s);
    if NoLineTerminator(s) {
      LookaheadDigitMeaning(s);
    }
  }

  /** The password field rules: `.min(10)` adds nothing the regular expression does not already demand. */
  lemma PasswordAcceptedMeaning(t: string)
    ensures PasswordAccepted(t) <==> |t| >= PASSWORD_MIN_LENGTH && NoLineTerminator(t) && HasDigit(t)
  {
    PasswordRegexMeaning(t);
  }

  /** A ten-character password with a digit is accepted. */
  lemma PasswordRegexAccepts()
    ensures MatchesPasswordRegex("abc1234567")
  {
    PasswordRegexMeaning("abc1234567");
    assert IsDigit("abc1234567"[3]);
  }

  /** A password without a digit is refused, however long: letters alone never pass. */
  lemma PasswordRegexNeedsDigit(t: string)
    requires forall k :: 0 <= k < |t| ==> 'a' <= t[k] <= 'z'
    ensures !MatchesPasswordRegex(t)
  {
    PasswordRegexMeaning(t);
  }

  /** A line break inside the password defeats `.` and `$`, digits or not. */
  lemma PasswordRegexRefusesLineBreak()
    ensures !MatchesPasswordRegex("abcde\n12345")
  {
    PasswordRegexMeaning("abcde\n12345");
    assert IsLineTerminator("abcde\n12345"[5]);
  }

  /**
   * `createAccount`: a failed parse returns `{ isSuccess: false, error }` with
   * the flattened errors and leaves the store as it was; an accepted one
   * hashes the trimmed password, inserts exactly one row holding the trimmed
   * e-mail, the trimmed username and that hash, and redirects to `/log-in`.
   * The unique columns still hold afterwards. No session is involved.
   */
  method CreateAccount(db: Database, form: AccountForm, isEmail: string -> bool, hash: string -> string)
    returns (r: ActionResult)
    requires db.Valid()
    modifies db
    ensures db.Valid()
    ensures CreateAccountSchema(form, old(db.users), isEmail).Failure? ==>
      && r == FormState(false, CreateAccountSchema(form, old(db.users), isEmail).error)
      && db.users == old(db.users) && db.nextId == old(db.nextId)
    ensures CreateAccountSchema(form, old(db.users), isEmail).Success? ==>
      var d := CreateAccountSchema(form, old(db.users), isEmail).data;
      && r == Redirect(LOG_IN_PATH)
      && old(db.nextId) !in old(db.users)
      && db.users == old(db.users)[old(db.nextId) := User(d.email, d.username, hash(d.password))]
      && db.nextId == old(db.nextId) + 1
      && |db.users| == |old(db.users)| + 1
  {
    var result := CreateAccountSchema(form, db.users, isEmail);
    if result.Failure? {
      return FormState(false, result.error);
    }
    CreateAccountAccepted(form, db.users, isEmail);
    var hashedPassword := hash(result.data.password);
    var id := db.Create(result.data.email, result.data.username, hashedPassword);
    r := Redirect(LOG_IN_PATH);
  }
}
