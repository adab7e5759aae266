/**
 * The three actions working together on one store and one browser session:
 * a sign-up accepted on an empty store is stored, logging in with the same
 * e-mail and password entries opens the profile on that row, and logging
 * out closes it again.
 */
module Journey {

  import opened Wrappers
  import opened Store
  import opened Sessions
  import opened Navigation
  import CreateAccount
  import LogIn
  import Profile

  /** The log-in form a user fills in with the entries of their sign-up form. */
  function LogInWith(form: CreateAccount.AccountForm): LogIn.LogInForm
  {
    LogIn.LogInForm(form.email, form.password)
  }

  /**
   * Once an accepted sign-up is stored, its e-mail and password entries pass
   * the log-in schema, whatever hash the row holds, and parse to the same
   * trimmed e-mail and password.
   */
  lemma LogInAfterSignUp(form: CreateAccount.AccountForm, isEmail: string -> bool, passwordHash: string)
    requires CreateAccount.CreateAccountSchema(form, map[], isEmail).Success?
    ensures var d := CreateAccount.CreateAccountSchema(form, map[], isEmail).data;
      var users := map[1 := User(d.email, d.username, passwordHash)];
      && LogIn.LogInSchema(LogInWith(form), users, isEmail).Success?
      && LogIn.LogInSchema(LogInWith(form), users, isEmail).data == LogIn.Credentials(d.email, d.password)
  {
    CreateAccount.CreateAccountAccepted(form, map[], isEmail);
    var d := CreateAccount.CreateAccountSchema(form, map[], isEmail).data;
    var users := map[1 := User(d.email, d.username, passwordHash)];
    assert users[1].email == d.email;
    LogIn.LogInAccepted(LogInWith(form), users, isEmail);
  }

  /**
   * Sign-up, log-in, profile, log-out, profile, starting from an empty store
   * and no cookie. `compare` only has to recognise the trimmed password
   * against its own hash.
   */
  method SignUpLogInLogOut(form: CreateAccount.AccountForm, isEmail: string -> bool,
                           hash: string -> string, compare: (string, string) -> bool)
    returns (signedUp: ActionResult, loggedIn: ActionResult, profile: Profile.Lookup,
             loggedOut: ActionResult, afterLogOut: Profile.Lookup)
    requires CreateAccount.CreateAccountSchema(form, map[], isEmail).Success?
    requires var d := CreateAccount.CreateAccountSchema(form, map[], isEmail).data;
      compare(d.password, hash(d.password))
    ensures var d := CreateAccount.CreateAccountSchema(form, map[], isEmail).data;
      && signedUp == Redirect(LOG_IN_PATH)
      && loggedIn == Redirect(PROFILE_PATH)
      && profile == Profile.Found(User(d.email, d.username, hash(d.password)))
      && loggedOut == Redirect(HOME_PATH)
      && afterLogOut == Profile.NotFound
  {
    var db := new Database();
    var d := CreateAccount.CreateAccountSchema(form, map[], isEmail).data;
    var row := User(d.email, d.username, hash(d.password));

    signedUp := CreateAccount.CreateAccount(db, form, isEmail, hash);
    assert db.users == map[1 := row];

    // Each request opens the session from the cookie the browser sends back.
    var logInRequest := new Session.Open(None);
    LogInAfterSignUp(form, isEmail, hash(d.password));
    assert LogIn.PasswordMatches(db.users, LogIn.Credentials(d.email, d.password), compare) by {
      assert 1 in db.users && db.users[1] == row;
    }
    loggedIn := LogIn.LogIn(db, logInRequest, LogInWith(form), isEmail, compare);
    assert logInRequest.cookie == Some(1) by {
      assert logInRequest.id.value in db.users;
    }

    var profileRequest := new Session.Open(logInRequest.cookie);
    profile := Profile.GetUser(profileRequest, db);

    var logOutRequest := new Session.Open(profileRequest.cookie);
    loggedOut := Profile.LogOut(logOutRequest);

    var lastRequest := new Session.Open(logOutRequest.cookie);
    afterLogOut := Profile.GetUser(lastRequest, db);
  }
}
