/**
 * What a server action hands back to the framework: a form state, or a
 * `redirect(...)` (which Next.js raises as an exception and this model
 * returns as a value).
 */
module Navigation {

  import Zod

  /** `{ isSuccess, error }` returned to the form, or a redirect to `target`. */
  datatype ActionResult = FormState(isSuccess: bool, error: Zod.Flattened) | Redirect(target: string)

  const LOG_IN_PATH := "/log-in"
  const PROFILE_PATH := "/profile"
  const HOME_PATH := "/"
}
