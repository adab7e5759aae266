/**
 * The log-in server action: `logInSchema` (a trimmed e-mail that must have
 * the address shape and belong to a row, a trimmed password with no rule) and
 * `logIn` (validate, look the row up, compare the password with its hash, set
 * the session id and save, redirect).
 */
module LogIn {

  import opened Wrappers
  import opened JsString
  import opened Zod
  import opened Store
  import opened Sessions
  import opened Navigation

  const EMAIL_INVALID := "Please enter a valid email address."
  const NO_ACCOUNT := "An account with this email doesn't not exist."
  const WRONG_PASSWORD := "Wrong password."

  /** The two entries of the submitted form. */
  datatype LogInForm = LogInForm(email: FormValue, password: FormValue)

  /** The parsed, trimmed payload. */
  datatype Credentials = Credentials(email: string, password: string)

  /** `checkEmailExists`: `findUnique({ where: { email } })` returns a row, the store's own `EmailTaken`. */
  predicate CheckEmailExists(users: map<int, User>, email: string)
  {
    EmailTaken(users, email)
  }

  /** `email`: `.email(...)`, then `.refine(checkEmailExists, ...)`; the lookup runs even after a failed shape check. */
  function EmailFailures(users: map<int, User>, isEmail: string -> bool, t: string): seq<string>
  {
    (if isEmail(t) then [] else [EMAIL_INVALID]) + (if CheckEmailExists(users, t) then [] else [NO_ACCOUNT])
  }

  function EmailField(v: FormValue, users: map<int, User>, isEmail: string -> bool): Stage<string>
  {
    CheckedString("email", v, None, t => EmailFailures(users, isEmail, t))
  }

  /** `password`: only the type test and `trim`. */
  function PasswordField(v: FormValue): Stage<string>
  {
    CheckedString("password", v, None, t => [])
  }

  /** `z.object({...})`: both fields are parsed; a wrong type aborts the object. */
  function ParseFields(form: LogInForm, users: map<int, User>, isEmail: string -> bool): Stage<Credentials>
  {
    var e := EmailField(form.email, users, isEmail);
    var p := PasswordField(form.password);
    var issues := e.issues + p.issues;
    if e.Running? && p.Running? then Running(issues, Credentials(e.value, p.value)) else Aborted(issues)
  }

  /** `logInSchema.spa(data)` against the rows in `users`: an object with no refinement of its own. */
  function LogInSchema(form: LogInForm, users: map<int, User>, isEmail: string -> bool): SafeParse<Credentials>
  {
    Finish(ParseFields(form, users, isEmail))
  }

  /** The record returned when no row matches or the password does not: scoped to `password`, with an empty `email` list. */
  function WrongPasswordError(): (e: Flattened)
    ensures e.formErrors == []
    ensures ErrorsOn(e, "password") == [WRONG_PASSWORD] && ErrorsOn(e, "email") == []
    ensures e.fieldErrors.Keys == {"password", "email"}
  {
    Flattened([], map["password" := [WRONG_PASSWORD], "email" := []])
  }

  /** Some row has the submitted e-mail and `compare` accepts the submitted password against its hash. */
  predicate PasswordMatches(users: map<int, User>, c: Credentials, compare: (string, string) -> bool)
  {
    exists id :: id in users && users[id].email == c.email && compare(c.password, users[id].passwordHash)
  }

  // A flat restatement of the schema, field by field.

  predicate AllText(form: LogInForm)
  {
    form.email.Text? && form.password.Text?
  }

  function Trimmed(form: LogInForm): Credentials
    requires AllText(form)
  {
    Credentials(Trim(form.email.text), Trim(form.password.text))
  }

  function EmailRuleMessages(v: FormValue, users: map<int, User>, isEmail: string -> bool): seq<string>
  {
    if v.Text? then EmailFailures(users, isEmail, Trim(v.text)) else TypeMessages(v, None)
  }

  lemma EmailFieldStage(v: FormValue, users: map<int, User>, isEmail: string -> bool)
    ensures EmailField(v, users, isEmail).Running? <==> v.Text?
    ensures v.Text? ==> EmailField(v, users, isEmail).value == Trim(v.text)
    ensures EmailField(v, users, isEmail).issues == OnField("email", EmailRuleMessages(v, users, isEmail))
  {
  }

  /** The issues the field rules raise: the e-mail's, then the password's. */
  function FieldIssues(form: LogInForm, users: map<int, User>, isEmail: string -> bool): seq<Issue>
  {
    OnField("email", EmailRuleMessages(form.email, users, isEmail)) + OnField("password", TypeMessages(form.password, None))
  }

  lemma FieldsStage(form: LogInForm, users: map<int, User>, isEmail: string -> bool)
    ensures ParseFields(form, users, isEmail).Running? <==> AllText(form)
    ensures AllText(form) ==> ParseFields(form, users, isEmail).value == Trimmed(form)
    ensures ParseFields(form, users, isEmail).issues == FieldIssues(form, users, isEmail)
  {
    EmailFieldStage(form.email, users, isEmail);
  }

  lemma SchemaResult(form: LogInForm, users: map<int, User>, isEmail: string -> bool)
    ensures var r := LogInSchema(form, users, isEmail);
      && (r.Success? <==> AllText(form) && FieldIssues(form, users, isEmail) == [])
      && (r.Success? ==> r.data == Trimmed(form))
      && (r.Failure? ==> r.error == Flatten(FieldIssues(form, users, isEmail)))
  {
    FieldsStage(form, users, isEmail);
  }

  /**
   * Log-in data is accepted exactly when both entries are text and the
   * trimmed e-mail has the address shape and belongs to a row; the password
   * only has to be text, so even an empty one passes. The payload is then
   * the trimmed entries.
   */
  lemma LogInAccepted(form: LogInForm, users: map<int, User>, isEmail: string -> bool)
    ensures LogInSchema(form, users, isEmail).Success? <==>
      AllText(form) && isEmail(Trimmed(form).email) && CheckEmailExists(users, Trimmed(form).email)
    ensures LogInSchema(form, users, isEmail).Success? ==> LogInSchema(form, users, isEmail).data == Trimmed(form)
  {
    SchemaResult(form, users, isEmail);
    var me := EmailRuleMessages(form.email, users, isEmail);
    var mp := TypeMessages(form.password, None);
    assert |FieldIssues(form, users, isEmail)| == |me| + |mp|;
  }

  /**
   * On failure the record has no form-level message; `email` lists the shape
   * and existence messages (or the type message), and `password` gets a
   * message only when its entry is not text.
   */
  lemma LogInErrors(form: LogInForm, users: map<int, User>, isEmail: string -> bool)
    ensures var r := LogInSchema(form, users, isEmail);
      r.Failure? ==>
        && r.error.formErrors == []
        && ErrorsOn(r.error, "email") == EmailRuleMessages(form.email, users, isEmail)
        && ErrorsOn(r.error, "password") == TypeMessages(form.password, None)
        && (forall f :: f in r.error.fieldErrors ==> f in {"email", "password"})
  {
    SchemaResult(form, users, isEmail);
    FlattenTwoFields("email", EmailRuleMessages(form.email, users, isEmail), "password", TypeMessages(form.password, None));
  }

  /** A trimmed e-mail with no row is reported on `email`, whatever its shape and whatever the password. */
  lemma UnknownEmailReported(form: LogInForm, users: map<int, User>, isEmail: string -> bool)
    requires form.email.Text? && !CheckEmailExists(users, Trim(form.email.text))
    ensures var r := LogInSchema(form, users, isEmail);
      r.Failure? && NO_ACCOUNT in ErrorsOn(r.error, "email")
  {
    LogInAccepted(form, users, isEmail);
    LogInErrors(form, users, isEmail);
    var t := Trim(form.email.text);
    var r := LogInSchema(form, users, isEmail);
    assert ErrorsOn(r.error, "email") == (if isEmail(t) then [] else [EMAIL_INVALID]) + [NO_ACCOUNT];
  }

  /**
   * `logIn`: a failed parse returns the flattened errors and touches no
   * session; when no row has the e-mail or `compare` rejects the password
   * the wrong-password record comes back and the session is untouched;
   * otherwise the session id becomes the matching row's id, the session is
   * saved, and the user is sent to `/profile`. The store is only read.
   */
  method LogIn(db: Database, session: Session, form: LogInForm, isEmail: string -> bool, compare: (string, string) -> bool)
    returns (r: ActionResult)
    requires db.Valid()
    modifies session
    ensures LogInSchema(form, db.users, isEmail).Failure? ==>
      r == FormState(false, LogInSchema(form, db.users, isEmail).error) && unchanged(session)
    ensures LogInSchema(form, db.users, isEmail).Success? ==>
      var c := LogInSchema(form, db.users, isEmail).data;
      && (r == Redirect(PROFILE_PATH) <==> PasswordMatches(db.users, c, compare))
      && (r != Redirect(PROFILE_PATH) ==> r == FormState(false, WrongPasswordError()) && unchanged(session))
    ensures r == Redirect(PROFILE_PATH) ==>
      var c := LogInSchema(form, db.users, isEmail).data;
      && LogInSchema(form, db.users, isEmail).Success?
      && session.id.Some? && session.cookie == session.id
      && session.id.value in db.users
      && db.users[session.id.value].email == c.email
      && compare(c.password, db.users[session.id.value].passwordHash)
  {
    var result := LogInSchema(form, db.users, isEmail);
    if result.Failure? {
      return FormState(false, result.error);
    }
    var c := result.data;
    var found := db.FindByEmail(c.email);
    if found.Some? && compare(c.password, db.users[found.value].passwordHash) {
      session.id := Some(found.value);
      session.Save();
      return Redirect(PROFILE_PATH);
    }
    r := FormState(false, WrongPasswordError());
  }
}
