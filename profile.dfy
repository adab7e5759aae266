/**
 * The profile page's server-side logic: `getUser` (the row named by the
 * session id, or "not found") and the `logOut` action (destroy the session,
 * redirect home). The page's markup is not modelled.
 */
module Profile {

  import opened Wrappers
  import opened Store
  import opened Sessions
  import opened Navigation

  /** The outcome of `getUser`: the row, or the `notFound()` page. */
  datatype Lookup = Found(user: User) | NotFound

  /**
   * `getUser`: a row comes back only when the session id is truthy (a
   * number other than 0) and `findUnique` finds a row with that id.
   */
  function GetUser(session: Session, db: Database): (r: Lookup)
    reads session, db
    ensures r.Found? <==> session.id.Some? && session.id.value != 0 && session.id.value in db.users
    ensures r.Found? ==> r.user == db.users[session.id.value]
  {
    match session.id
    case None => NotFound
    case Some(i) => if i != 0 && i in db.users then Found(db.users[i]) else NotFound
  }

  /**
   * On a consistent store the truthiness test removes nothing: the id 0 never
   * names a row, so a row is found exactly when the session id names one.
   */
  lemma GetUserOnValidStore(session: Session, db: Database)
    requires db.Valid()
    ensures GetUser(session, db).Found? <==> session.id.Some? && session.id.value in db.users
  {
    if session.id.Some? && session.id.value in db.users {
      assert session.id.value >= 1;
    }
  }

  /**
   * The `logOut` action: the session payload and its cookie are emptied, so
   * no later `getUser` finds a row whatever the store holds, and the user is
   * sent to `/`.
   */
  method LogOut(session: Session) returns (r: ActionResult)
    modifies session
    ensures session.id == None && session.cookie == None
    ensures forall db: Database :: GetUser(session, db) == NotFound
    ensures r == Redirect(HOME_PATH)
  {
    session.Destroy();
    r := Redirect(HOME_PATH);
  }
}
