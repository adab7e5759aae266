# Sign-up, log-in and profile actions, modelled in Dafny

This project models the server side of a small Next.js authentication app:

- `createAccount` validates a four-field sign-up form with a zod schema. It
  rejects the form with zod's flattened errors, or it hashes the password,
  inserts a user row and redirects to `/log-in`.
- `logIn` validates an e-mail/password form and looks the row up by e-mail.
  It compares the password with the stored bcrypt hash. On a match it stores
  the row id in the iron-session cookie and redirects to `/profile`.
- On the profile page, `getUser` resolves the session id to a row (otherwise
  the page is "not found"), and the `logOut` action destroys the session and
  redirects to `/`.

The modules follow the program:

- `JsString`: the JavaScript string semantics the validators rely on. These
  are `trim`, `includes`, `\d` and `.`.
- `Zod`: the slice of zod the schemas use. Values are typed and trimmed,
  checks accumulate issues, refinements can raise a fatal issue, and
  `flatten()` builds the error record.
- `Store`: the Prisma user table, a class holding a map from id to row and
  the next auto-increment id.
- `Sessions`: the iron-session object, a class holding the payload id and
  the sealed cookie.
- `Navigation`: what an action returns, either a form state or a redirect.
- `CreateAccount`, `LogIn` and `Profile`: the three core files.
- `Journey`: the three actions run one after another on one store, each
  request reading the cookie the previous one left.

Each schema is a plain function from the submitted form and the store's rows
to a parse result. A second, flat definition states per field which messages
appear. The lemmas `CreateAccountAccepted`, `CreateAccountErrors`,
`LogInAccepted` and `LogInErrors` prove that the two definitions agree. The
actions are methods on the `Database` and `Session` classes. Their contracts
tie the new state to the schema result.

Collaborators the model cannot see are parameters:

- `isEmail` stands for zod's `.email()` address check.
- `hash` stands for `bcrypt.hash(_, 12)`.
- `compare` stands for `bcrypt.compare`.

Behaviour of the code that the model follows, where the schema declarations
alone might suggest otherwise:

- zod runs every check and every non-fatal `refine` of a field on the trimmed
  text, even after an earlier check failed. So a short password gets both the
  length message and the digit message, and the `@zod.com` rule reports next
  to a bad address.
- The object-level `superRefine`/`refine` steps run whenever every entry is
  a string, even when field checks have already failed ("dirty"). They are
  skipped only when an entry is not a string, or after an earlier fatal
  issue. A taken e-mail is fatal, so it hides the username lookup and the
  password-match message.
- `FormData.get` returns `null`, never `undefined`, for a missing entry. So
  the schemas' `required_error` texts never appear. A missing entry reports
  zod's "Expected string, received null", or "Username must be a string." on
  `username`.
- The `@zod.com` rule uses `includes`, not a suffix test
  (`JsString.IncludesIsNotSuffixTest`).
- The `PASSWORD_REGEX` constant in the log-in file is never used. Log-in
  accepts any password text, even an empty one.
- `logIn` still handles "no row for this e-mail" after validation, with the
  same wrong-password record as a failed comparison.
- `getUser` tests the session id for truthiness. On a consistent store, id 0
  never names a row, so the test removes nothing (`GetUserOnValidStore`).

## Model

| member | source | states |
|---|---|---|
| JsString.Trim | src/app/create-account/actions.ts:27 | `.trim()`; its meaning is stated by `TrimStartMeaning`, `TrimEndMeaning`, `TrimIsTrimmed` and `TrimKeepsInfix` below. |
| JsString.TrimStartMeaning | src/app/create-account/actions.ts:27 | The leading half of `trim` drops exactly a run of trimmable characters (ECMAScript WhiteSpace and LineTerminator): the result is a suffix that does not start with one, and every dropped character is one. |
| JsString.TrimEndMeaning | src/app/create-account/actions.ts:27 | The trailing half of `trim`: the result is a prefix that does not end with a trimmable character, and every dropped character is trimmable. |
| JsString.TrimIsTrimmed | src/app/create-account/actions.ts:27 | A trimmed string has no trimmable character at either end and is never longer than the input. |
| JsString.TrimKeepsInfix | src/app/create-account/actions.ts:27 | `trim` keeps a contiguous middle of the input: only trimmable characters lie before and after it. |
| JsString.TrimOfTrimmed | src/app/create-account/actions.ts:27 | Trimming a string with no trimmable end leaves it unchanged. |
| JsString.TrimIdempotent | src/app/create-account/actions.ts:27 | Trimming twice is the same as trimming once. |
| JsString.Includes | src/app/create-account/actions.ts:30 | `email.includes("@zod.com")`; its meaning is stated by `IncludesMeaning`. |
| JsString.IncludesMeaning | src/app/create-account/actions.ts:30 | `includes` holds exactly when the substring occurs at some offset of the string. |
| JsString.SuffixIncluded | src/app/create-account/actions.ts:30 | Every address that ends in `@zod.com` passes the domain rule. |
| JsString.IncludesIsNotSuffixTest | src/app/create-account/actions.ts:29-31 | The domain rule also accepts an address in which `@zod.com` is followed by more text (`eve@zod.com.attacker.example`). |
| Zod.MessagesForSingle | src/app/create-account/actions.ts:131 | A single issue contributes its message to its own field only. |
| Zod.MessagesForAppend | src/app/create-account/actions.ts:131 | Issues raised one after another keep their per-field order. |
| Zod.MessagesForMember | src/app/create-account/actions.ts:131 | A message is listed on a field exactly when an issue with that field and message was raised. |
| Zod.Flatten | src/app/create-account/actions.ts:131 | `result.error.flatten()`; its meaning is stated by `FlattenMeaning`. |
| Zod.FlattenMeaning | src/app/create-account/actions.ts:131 | `flatten()` gives no form-level message. A field gets an entry exactly when some issue names it, and the entry lists that field's messages in the order raised. |
| Zod.FlattenErrorsOn | src/app/log-in/actions.ts:49 | What a caller reads off the flattened record on a field is exactly the issues raised on it, in both directions. |
| Zod.OnField | src/app/create-account/actions.ts:23-32 | A field's failed checks raise one issue per message. |
| Zod.MessagesForOnField | src/app/create-account/actions.ts:23-66 | Issues raised on one field appear on that field, in order, and on no other field. |
| Zod.MessagesForFront | src/app/create-account/actions.ts:22-67 | When one field's issues come before the others, that field's messages come first in its list. |
| Zod.MessagesForFourFields | src/app/create-account/actions.ts:22-67 | For the four distinct sign-up fields, each field's list holds exactly its own messages. |
| Zod.MessagesForTwoFields | src/app/log-in/actions.ts:20-34 | For the two distinct log-in fields, each field's list holds exactly its own messages. |
| Zod.FlattenTwoFields | src/app/log-in/actions.ts:49 | The flattened record of the two-field log-in object has no form-level message. Each field holds its own messages, and there is no other key. |
| Store.Database.constructor | src/app/create-account/actions.ts:137-146 | An empty table is consistent, and its first id is 1. |
| Store.Database.Create | src/app/create-account/actions.ts:137-146 | Given a free e-mail and a free username, the insert adds exactly one row at the next id. It leaves the other rows alone and keeps ids and unique columns consistent. |
| Store.Database.FindByEmail | src/app/log-in/actions.ts:54-57 | The lookup returns the one row holding the e-mail when there is one, and nothing exactly when no row holds it. |
| Sessions.Session.Open | src/app/log-in/actions.ts:72 | A freshly opened session's payload is what its cookie holds. |
| Sessions.Session.Save | src/app/log-in/actions.ts:74 | Saving seals the current payload into the cookie without changing the payload. |
| Sessions.Session.Destroy | src/app/profile/page.tsx:25 | Destroying empties both the payload and the cookie. |
| CreateAccount.CheckPasswords | src/app/create-account/actions.ts:13-19 | `checkPasswords`; what it decides for a sign-up is stated by `MismatchReported` and `CreateAccountAccepted`. |
| CreateAccount.MatchesPasswordRegex | src/app/create-account/actions.ts:11 | `PASSWORD_REGEX`; its meaning is stated by `PasswordRegexMeaning`. |
| CreateAccount.CreateAccountSchema | src/app/create-account/actions.ts:21-103 | `createAccountSchema.spa`; what it accepts is stated by `CreateAccountAccepted`, and what it reports by `CreateAccountErrors`. |
| CreateAccount.EmailFieldStage | src/app/create-account/actions.ts:23-32 | The e-mail field keeps going exactly when its entry is text. Its value is the trimmed text, and its issues are the shape and domain messages, or the type message. |
| CreateAccount.UsernameFieldStage | src/app/create-account/actions.ts:34-43 | The same for `username`, whose type message is "Username must be a string.". |
| CreateAccount.PasswordFieldStage | src/app/create-account/actions.ts:45-57 | The same for `password`, with the length and regex messages. |
| CreateAccount.ConfirmFieldStage | src/app/create-account/actions.ts:58-66 | The same for `confirm_password`, with the length message. |
| CreateAccount.FieldsRunning | src/app/create-account/actions.ts:21-67 | The object parse keeps going exactly when all four entries are text, carrying the trimmed payload. |
| CreateAccount.FieldsIssues | src/app/create-account/actions.ts:21-67 | The object parse raises the four fields' issues in order: email, username, password, confirm_password. |
| CreateAccount.SchemaStages | src/app/create-account/actions.ts:68-103 | After the three refinements, at most one refinement issue has been added (the first that fires), and the parse is still running exactly when all four entries are text and neither fatal lookup fired; the value is then the trimmed payload. |
| CreateAccount.SchemaResult | src/app/create-account/actions.ts:21-103 | The schema succeeds exactly when it is not aborted and no issue was raised. On success it yields the trimmed payload, and on failure the flattened field and refinement issues. |
| CreateAccount.SchemaIssuesOn | src/app/create-account/actions.ts:21-103 | A field's messages are its field-rule messages followed by its refinement messages. |
| CreateAccount.RefinementIssuesOn | src/app/create-account/actions.ts:68-103 | The refinement message on a field is the taken-e-mail, taken-username or mismatch message, exactly when that refinement fired. |
| CreateAccount.ErrorsOnField | src/app/create-account/actions.ts:128-134 | A failed sign-up has no form-level message. Each field lists its rules' messages and then its refinement message, and no listed field is empty. |
| CreateAccount.CreateAccountAccepted | src/app/create-account/actions.ts:21-103 | Sign-up data is accepted exactly when all four entries are text and their trimmed forms meet every condition: a well-formed address containing `@zod.com`, a username of at least 5 characters, a password of at least 10 characters matching the regex, a confirmation of at least 10 characters, a free e-mail, a free username and equal passwords. The payload is the trimmed entries. |
| CreateAccount.CreateAccountErrors | src/app/create-account/actions.ts:128-134 | On failure the record lists, per field, exactly the field rules' messages followed by the refinement message that fired there, with no form-level message and no other key. |
| CreateAccount.EmailTakenIsNoFailure | src/app/create-account/actions.ts:28-31 | No e-mail field rule uses the taken-e-mail message. |
| CreateAccount.EmailTakenIsNoRuleMessage | src/app/create-account/actions.ts:23-32 | Neither an e-mail field rule nor a type message is the taken-e-mail message. |
| CreateAccount.UsernameTakenIsNoRuleMessage | src/app/create-account/actions.ts:34-43 | No username rule or type message is the taken-username message. |
| CreateAccount.MismatchIsNoRuleMessage | src/app/create-account/actions.ts:58-66 | No confirmation rule or type message is the mismatch message. |
| CreateAccount.RuleMessagesAreNotRefinementMessages | src/app/create-account/actions.ts:21-103 | The refinements' messages never coincide with a field rule's message, so the record shows which refinement fired. |
| CreateAccount.EmailTakenIsFatal | src/app/create-account/actions.ts:68-83 | A taken trimmed e-mail is reported on `email`. Being fatal, it stops both the username lookup and the password match from reporting. |
| CreateAccount.UsernameTakenIsFatal | src/app/create-account/actions.ts:84-99 | With the e-mail free, a taken username is reported on `username` and stops the password match from reporting. |
| CreateAccount.MismatchReported | src/app/create-account/actions.ts:100-103 | With both lookups passed, different trimmed passwords are reported on `confirm_password`, even when field rules also failed. |
| CreateAccount.EmailRulesReported | src/app/create-account/actions.ts:23-32 | A bad address shape and a missing `@zod.com` are each reported on `email`, whatever the other entries hold. |
| CreateAccount.UsernameRuleReported | src/app/create-account/actions.ts:34-43 | A trimmed username under 5 characters is reported on `username`. |
| CreateAccount.PasswordRulesReported | src/app/create-account/actions.ts:45-57 | A password without a digit gets the digit message. A password under 10 characters gets exactly the length message and then the digit message. |
| CreateAccount.ConfirmRuleReported | src/app/create-account/actions.ts:58-66 | A trimmed confirmation under 10 characters is reported on `confirm_password`. |
| CreateAccount.WrongTypeSkipsRefinements | src/app/create-account/actions.ts:21-103 | An entry that is not text fails the parse, and no refinement runs: the rows in the store make no difference, and no taken-e-mail message appears. |
| CreateAccount.SecondSignUpRejected | src/app/create-account/actions.ts:68-83 | Once an accepted sign-up's row is stored, submitting the same form again fails with the e-mail reported taken. |
| CreateAccount.DotsToEndMeaning | src/app/create-account/actions.ts:11 | `.*$` without the `s` and `m` flags matches exactly the strings with no line terminator. |
| CreateAccount.LookaheadDigitMeaning | src/app/create-account/actions.ts:11 | On a line with no terminator, `(?=.*\d)` holds exactly when an ASCII digit occurs. |
| CreateAccount.PasswordRegexMeaning | src/app/create-account/actions.ts:11 | `PASSWORD_REGEX` accepts exactly the strings of at least 10 characters with no line terminator and at least one ASCII digit. |
| CreateAccount.PasswordAcceptedMeaning | src/app/create-account/actions.ts:45-57 | The password field's rules together require exactly: at least 10 characters, no line break, and a digit. |
| CreateAccount.PasswordRegexAccepts | src/app/create-account/actions.ts:11 | A 10-character password containing digits is accepted. |
| CreateAccount.PasswordRegexNeedsDigit | src/app/create-account/actions.ts:11 | A password made only of lower-case letters is refused, however long. |
| CreateAccount.PasswordRegexRefusesLineBreak | src/app/create-account/actions.ts:11 | A line break inside the password defeats the regex even with digits present. |
| CreateAccount.CreateAccount | src/app/create-account/actions.ts:118-149 | A rejected form returns `{isSuccess: false, error}` with the flattened errors and leaves the store unchanged. An accepted form adds exactly one row at the next id, holding the trimmed e-mail, the trimmed username and the hash of the trimmed password, advances the next id by one, and redirects to `/log-in`. The store stays consistent. |
| LogIn.CheckEmailExists | src/app/log-in/actions.ts:11-18 | `checkEmailExists`: some row holds the e-mail; how its failure is reported is stated by `UnknownEmailReported` and `LogInAccepted`. |
| LogIn.LogInSchema | src/app/log-in/actions.ts:20-34 | `logInSchema.spa`; what it accepts is stated by `LogInAccepted`, and what it reports by `LogInErrors`. |
| LogIn.WrongPasswordError | src/app/log-in/actions.ts:59-70 | The wrong-password record has no form-level message, `["Wrong password."]` on `password`, an empty list on `email`, and no other key. |
| LogIn.EmailFieldStage | src/app/log-in/actions.ts:21-27 | The e-mail field keeps going exactly when its entry is text, with the trimmed value. Its issues are the shape and existence messages, or the type message. |
| LogIn.FieldsStage | src/app/log-in/actions.ts:20-34 | The object parse keeps going exactly when both entries are text, carrying the trimmed payload, and raises the e-mail issues and then the password issues. |
| LogIn.SchemaResult | src/app/log-in/actions.ts:20-34 | The schema succeeds exactly when both entries are text and no issue was raised. On success it yields the trimmed payload, and on failure the flattened issues. |
| LogIn.LogInAccepted | src/app/log-in/actions.ts:20-34 | Log-in data is accepted exactly when both entries are text and the trimmed e-mail has the address shape and belongs to a row. The payload is the trimmed entries. |
| LogIn.LogInErrors | src/app/log-in/actions.ts:46-52 | On failure there is no form-level message. `email` lists the shape and existence messages (or the type message), `password` lists only a type message, and there is no other key. |
| LogIn.UnknownEmailReported | src/app/log-in/actions.ts:11-18 | A trimmed e-mail that names no row is reported on `email`, whatever its shape and whatever the password. |
| LogIn.LogIn | src/app/log-in/actions.ts:41-76 | A rejected form returns the flattened errors and leaves the session alone. An accepted form redirects to `/profile` exactly when the row with that e-mail exists and `compare` accepts the password; otherwise it returns the wrong-password record and leaves the session alone. On redirect, the session id and cookie hold that row's id. |
| Profile.GetUser | src/app/profile/page.tsx:6-19 | A row is found exactly when the session id is present, non-zero and names a row, and then it is that row. |
| Profile.GetUserOnValidStore | src/app/profile/page.tsx:8-15 | On a consistent store, a row is found exactly when the session id names one. |
| Profile.LogOut | src/app/profile/page.tsx:22-27 | After log-out, the payload and the cookie are empty, no store yields a row for this session, and the user is sent to `/`. |
| Journey.LogInAfterSignUp | src/app/log-in/actions.ts:20-34 | Once an accepted sign-up is stored, its e-mail and password entries pass the log-in schema and parse to the same trimmed e-mail and password. |
| Journey.SignUpLogInLogOut | src/app/create-account/actions.ts:118-149 | From an empty store and no cookie: sign-up redirects to `/log-in`, log-in with the same entries redirects to `/profile`, the profile shows the stored row, and after log-out the profile finds nothing. Each request opens its session from the cookie the previous one left. |

## Left out

- The store compares e-mails and usernames exactly, with no case folding. The database provider and its collation are not part of this model, and a case-insensitive collation would make more lookups succeed.
- Prisma I/O is a map held by a class. Ids are assumed to be auto-incremented from 1; the Prisma schema file is not part of this model.
- bcrypt is modelled by the `hash` and `compare` parameters. The cost factor 12 and salting are not modelled.
- zod's `.email()` regular expression is the `isEmail` parameter.
- Sessions: iron-session sealing, the cookie name and `COOKIE_PASSWORD` are not modelled (`src/utils/session.ts` is not part of this model beyond its payload shape). A cookie that fails to unseal is not modelled either; `Session.Open` takes the payload it would yield.
- Concurrency: the check-then-insert race between the uniqueness `superRefine` and `db.user.create` is not modelled. Actions run one at a time, so `Store.Database.Create` may require free columns.
- `redirect(...)` and `notFound()` throw in Next.js. Here they are returned values (`Redirect`, `NotFound`).
- `prevState` and the FormState `null` error variant are not modelled, since the actions never read or return them.
- Page markup, the home page and the form components are not modelled.
- JavaScript strings are UTF-16 code unit sequences. Here they are sequences of Unicode scalar values, so `.min(n)` counts a character outside the Basic Multilingual Plane as one, not two.
- zod type checks other than "string / null / File" (numbers, `undefined`) cannot arise from `FormData.get` and are not modelled.
- `bcrypt.hash` and `db.user.create` failures (rejected promises) are not modelled.
