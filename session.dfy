/**
 * The iron-session object of one request. Its payload is `{ id?: number }`;
 * `save()` seals the payload into the `authentication` cookie and `destroy()`
 * empties both.
 */
module Sessions {

  import opened Wrappers

  class Session {

    /** The payload as this request reads and edits it. */
    var id: Option<int>
    /** The payload sealed in the cookie the response carries. */
    var cookie: Option<int>

    /** `getSession()` on an intact cookie: the payload is what the cookie holds. */
    constructor Open(sealed: Option<int>)
      ensures id == sealed && cookie == sealed
    {
      id := sealed;
      cookie := sealed;
    }

    /** `session.save()`: the cookie now carries the current payload. */
    method Save()
      modifies this
      ensures cookie == id && id == old(id)
    {
      cookie := id;
    }

    /** `session.destroy()`: the payload is emptied and the cookie cleared. */
    method Destroy()
      modifies this
      ensures id == None && cookie == None
    {
      id := None;
      cookie := None;
    }
  }
}
