/**
 * The user table as the server actions see it through Prisma: rows keyed by
 * an auto-incremented id, with `email` and `username` unique columns.
 */
module Store {

  import opened Wrappers

  /** A row: the e-mail, the username and the bcrypt hash of the password. */
  datatype User = User(email: string, username: string, passwordHash: string)

  /** `findUnique({ where: { email } })` finds a row. */
  predicate EmailTaken(users: map<int, User>, email: string)
  {
    exists id :: id in users && users[id].email == email
  }

  /** `findUnique({ where: { username } })` finds a row. */
  predicate UsernameTaken(users: map<int, User>, username: string)
  {
    exists id :: id in users && users[id].username == username
  }

  ghost predicate UniqueColumns(users: map<int, User>)
  {
    forall a, b :: a in users && b in users && a != b ==>
      users[a].email != users[b].email && users[a].username != users[b].username
  }

  class Database {

    var users: map<int, User>
    /** The id the next insert receives. */
    var nextId: int

    /** Ids are positive and below `nextId`; the unique columns hold no duplicate. */
    ghost predicate Valid()
      reads this
    {
      && 1 <= nextId
      && (forall id :: id in users ==> 1 <= id < nextId)
      && UniqueColumns(users)
    }

    constructor ()
      ensures Valid()
      ensures users == map[] && nextId == 1
    {
      users := map[];
      nextId := 1;
    }

    /**
     * `db.user.create`: the unique constraints demand a free e-mail and a free
     * username; the row gets the next id.
     */
    method Create(email: string, username: string, passwordHash: string) returns (id: int)
      requires Valid()
      requires !EmailTaken(users, email) && !UsernameTaken(users, username)
      modifies this
      ensures Valid()
      ensures id == old(nextId) && id !in old(users)
      ensures users == old(users)[id := User(email, username, passwordHash)]
      ensures nextId == old(nextId) + 1
    {
      id := nextId;
      users := users[id := User(email, username, passwordHash)];
      nextId := nextId + 1;
    }

    /** `findUnique({ where: { email } })`: the id of the row with that e-mail, if any. */
    method FindByEmail(email: string) returns (found: Option<int>)
      requires Valid()
      ensures found.Some? ==> found.value in users && users[found.value].email == email
      ensures found.Some? ==> forall id :: id in users && users[id].email == email ==> id == found.value
      ensures found.None? <==> !EmailTaken(users, email)
    {
      if id :| id in users && users[id].email == email {
        found := Some(id);
      } else {
        found := None;
      }
    }
  }
}
