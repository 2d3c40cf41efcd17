/** The three `localStorage` items the application uses. Stored text is
    either written by the application itself or unreadable, so each item
    is kept in the shape the application reads it back in. */
module Storage {
  import opened Optional
  import opened Records

  /** The `currentUser` item: absent (or empty, which reads the same), text
      `JSON.parse` rejects, or the JSON of a user or of `null`. */
  datatype SavedUser = NoSavedUser | Unreadable | SavedJson(user: Option<AuthUser>)

  class BrowserStorage {
    var currentUser: SavedUser
    var authToken: Option<string>
    var lastSyncTimestamp: Option<string>

    constructor(user: SavedUser, token: Option<string>, lastSync: Option<string>)
      ensures currentUser == user && authToken == token && lastSyncTimestamp == lastSync
    {
      currentUser := user;
      authToken := token;
      lastSyncTimestamp := lastSync;
    }
  }
}
