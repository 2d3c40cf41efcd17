/** The session service of lib/auth.ts: who is signed in, the token the
    sync service sends, the role-based capabilities, and the listeners told
    about every change of session. */
module Auth {
  import opened Optional
  import opened Seqs
  import opened Strings
  import opened Tables
  import opened Records
  import opened Storage
  import opened LocalDatabase

  /** What `getToken` returns: the backend's token, or the token built from
      the signed-in user (an opaque encoding of these fields). */
  datatype Token = Bearer(text: string) | Synthesized(userId: int, email: string, role: Role, exp: int)

  /** A synthesized token expires seven days after it is made. */
  const TokenLifetime: int := 7 * 24 * 60 * 60 * 1000

  /** A subscribed callback, identified by its handle. */
  type Listener = nat

  /** What `register` does: throws on a taken email, or resolves with the
      new session user (null when the stored user has id 0). */
  datatype Registration = EmailTaken | Registered(user: Option<AuthUser>)

  const DefaultAdmin: User :=
    User(0, "System Administrator", "admin@obraledger.com", "admin123", Admin, true, 0, 0)

  /** A JavaScript string is truthy when it is present and not empty. */
  predicate Truthy(s: Option<string>) {
    s.Some? && s.value != ""
  }

  function HasRole(user: Option<AuthUser>, role: Role): bool {
    user.Some? && user.value.role == role
  }

  function HasAnyRole(user: Option<AuthUser>, roles: seq<Role>): bool {
    user.Some? && user.value.role in roles
  }

  function CanEdit(user: Option<AuthUser>): (r: bool)
    ensures r <==> user.Some? && (user.value.role == Admin || user.value.role == Recorder)
  {
    HasAnyRole(user, [Admin, Recorder])
  }

  /** Every role may view; only being signed out takes it away. */
  function CanView(user: Option<AuthUser>): (r: bool)
    ensures r <==> user.Some?
  {
    if user.Some? then
      EveryRole(user.value.role);
      HasAnyRole(user, [Admin, Recorder, Viewer, Auditor])
    else HasAnyRole(user, [Admin, Recorder, Viewer, Auditor])
  }

  lemma EveryRole(role: Role)
    ensures role in [Admin, Recorder, Viewer, Auditor]
  {
    match role
    case Admin =>
    case Recorder =>
    case Viewer =>
    case Auditor =>
  }

  function CanManageUsers(user: Option<AuthUser>): (r: bool)
    ensures r <==> user.Some? && user.value.role == Admin
    ensures r ==> CanEdit(user) && CanViewFinancials(user)
  {
    HasRole(user, Admin)
  }

  function CanViewFinancials(user: Option<AuthUser>): (r: bool)
    ensures r <==> user.Some? && (user.value.role == Admin || user.value.role == Auditor)
  {
    HasAnyRole(user, [Admin, Auditor])
  }

  /** The session record built from a stored user. */
  function SessionUser(u: User): AuthUser {
    AuthUser(u.id, u.email, u.name, u.role, u.createdAt)
  }

  /** The local login test: email equal ignoring case, password exactly
      equal, and the account active. */
  predicate Matches(u: User, email: string, password: string) {
    ToLower(u.email) == ToLower(email) && u.password == password && u.isActive
  }

  function Credentials(email: string, password: string): User -> bool {
    (u: User) => Matches(u, email, password)
  }

  /** Row i is the first user the credentials match. */
  predicate FirstMatch(users: seq<User>, email: string, password: string, i: int) {
    0 <= i < |users| && Matches(users[i], email, password) &&
    forall j :: 0 <= j < i ==> !Matches(users[j], email, password)
  }

  /** The local path of `login`: the first matching user in id order, unless
      that user's id is 0, which the `user.id` test reads as no user. */
  function LocalLogin(users: seq<User>, email: string, password: string): (r: Option<AuthUser>)
    ensures r.Some? <==> exists i :: FirstMatch(users, email, password, i) && users[i].id != 0
    ensures r.Some? ==> exists i :: FirstMatch(users, email, password, i) && r.value == SessionUser(users[i])
  {
    var p := Credentials(email, password);
    match FindIndex(users, p)
    case None => None
    case Some(i) =>
      assert FirstMatch(users, email, password, i);
      forall j | FirstMatch(users, email, password, j) ensures j == i {
        assert !(j < i) && !(i < j);
      }
      if users[i].id != 0 then Some(SessionUser(users[i])) else None
  }

  /** With no user stored under id 0 (the key generator starts at 1), local
      login succeeds exactly when some user matches the credentials. */
  lemma LocalLoginSucceedsIff(users: seq<User>, email: string, password: string)
    requires forall i :: 0 <= i < |users| ==> users[i].id != 0
    ensures LocalLogin(users, email, password).Some? <==>
            exists i :: 0 <= i < |users| && Matches(users[i], email, password)
  {
    if i :| 0 <= i < |users| && Matches(users[i], email, password) {
      var k := FindIndex(users, Credentials(email, password)).value;
      assert FirstMatch(users, email, password, k);
    }
  }

  /** The email a user types is compared case-insensitively: two spellings
      that lower-case alike sign in the same user. */
  lemma LoginIgnoresEmailCase(users: seq<User>, e1: string, e2: string, password: string)
    requires ToLower(e1) == ToLower(e2)
    ensures LocalLogin(users, e1, password) == LocalLogin(users, e2, password)
  {
    FindIndexAgree(users, Credentials(e1, password), Credentials(e2, password));
  }

  function SameEmail(email: string): User -> bool {
    (u: User) => ToLower(u.email) == ToLower(email)
  }

  /** The `register` test: some stored user has this email, ignoring case. */
  function EmailInUse(users: seq<User>, email: string): (r: bool)
    ensures r <==> exists i :: 0 <= i < |users| && ToLower(users[i].email) == ToLower(email)
  {
    Find(users, SameEmail(email)).Some?
  }

  /** `checkUserExists`: an active user has this email, ignoring case. */
  function ActiveUserExists(users: seq<User>, email: string): (r: bool)
    ensures r <==> exists i :: 0 <= i < |users| && ToLower(users[i].email) == ToLower(email) && users[i].isActive
  {
    if users == [] then false
    else (ToLower(users[0].email) == ToLower(email) && users[0].isActive) || ActiveUserExists(users[1..], email)
  }

  /** The calls one notification makes: every listener, in subscription
      order, with the same user. */
  function Broadcast(listeners: seq<Listener>, user: Option<AuthUser>): (r: seq<(Listener, Option<AuthUser>)>)
    ensures |r| == |listeners|
    ensures forall i :: 0 <= i < |r| ==> r[i] == (listeners[i], user)
  {
    if listeners == [] then [] else [(listeners[0], user)] + Broadcast(listeners[1..], user)
  }

  function Other(l: Listener): Listener -> bool {
    (x: Listener) => x != l
  }

  /** The unsubscribe function undoes its subscribe: subscribing l and then
      calling it leaves the listeners as they were without l, and as they
      were outright when l was not subscribed before. */
  lemma SubscribeThenUnsubscribe(ls: seq<Listener>, l: Listener)
    ensures Filter(ls + [l], Other(l)) == Filter(ls, Other(l))
    ensures l !in ls ==> Filter(ls + [l], Other(l)) == ls
  {
    FilterAppend(ls, [l], Other(l));
    assert Filter([l], Other(l)) == [];
    assert Filter(ls, Other(l)) + [] == Filter(ls, Other(l));
    if l !in ls {
      FilterAll(ls, Other(l));
    }
  }

  /** Which session `initialize` restores from storage: only when both the
      user item and the token item are truthy. */
  function RestoredSession(saved: SavedUser, token: Option<string>): (r: Option<(Option<AuthUser>, string)>)
    ensures r.Some? ==> Truthy(token) && r.value.1 == token.value && saved == SavedJson(r.value.0)
    ensures r.None? ==> !Truthy(token) || !saved.SavedJson?
  {
    match saved
    case SavedJson(u) => if Truthy(token) then Some((u, token.value)) else None
    case _ => None
  }

  /** A local login writes the user item but not the token item, so unless
      a token is left from an earlier backend login, the session is not
      restored on the next start. */
  lemma LocalSessionNotRestored(u: AuthUser, token: Option<string>)
    requires !Truthy(token)
    ensures RestoredSession(SavedJson(Some(u)), token).None?
  {
  }

  class AuthService {
    var currentUser: Option<AuthUser>
    var authToken: Option<string>
    var listeners: seq<Listener>
    /** Every listener call made so far, oldest first. */
    var calls: seq<(Listener, Option<AuthUser>)>

    constructor()
      ensures currentUser == None && authToken == None && listeners == [] && calls == []
    {
      currentUser := None;
      authToken := None;
      listeners := [];
      calls := [];
    }

    /** `getToken()`: the stored token when it is truthy, else a token built
        from the signed-in user valid for seven days, else none. */
    function GetToken(now: int): (r: Option<Token>)
      reads this
      ensures r.None? <==> !Truthy(authToken) && currentUser.None?
      ensures Truthy(authToken) ==> r == Some(Bearer(authToken.value))
      ensures r.Some? && r.value.Synthesized? ==>
                currentUser.Some? && r.value.userId == currentUser.value.id &&
                r.value.exp == now + TokenLifetime
    {
      if Truthy(authToken) then Some(Bearer(authToken.value))
      else if currentUser.Some? then
        Some(Synthesized(currentUser.value.id, currentUser.value.email, currentUser.value.role, now + TokenLifetime))
      else None
    }

    function IsAuthenticated(): bool
      reads this
    {
      currentUser.Some?
    }

    /** `notifyListeners()`: calls every listener with the current user. */
    method NotifyListeners()
      modifies this`calls
      ensures calls == old(calls) + Broadcast(listeners, currentUser)
    {
      var i := 0;
      while i < |listeners|
        invariant 0 <= i <= |listeners|
        invariant calls == old(calls) + Broadcast(listeners[..i], currentUser)
      {
        assert listeners[..i + 1] == listeners[..i] + [listeners[i]];
        BroadcastAppend(listeners[..i], [listeners[i]], currentUser);
        calls := calls + [(listeners[i], currentUser)];
        i := i + 1;
      }
      assert listeners[..i] == listeners;
    }

    /** `subscribe(listener)`. */
    method Subscribe(l: Listener)
      modifies this`listeners
      ensures listeners == old(listeners) + [l]
    {
      listeners := listeners + [l];
    }

    /** The function `subscribe` returns: drops every registration of l. */
    method Unsubscribe(l: Listener)
      modifies this`listeners
      ensures listeners == Filter(old(listeners), Other(l))
    {
      listeners := Filter(listeners, Other(l));
    }

    /** `initialize()`: the default administrator is created when there are
        no users, then the session is restored when storage holds both a
        user and a token; an unreadable user item is removed with the
        token. */
    method Initialize(db: Database, storage: BrowserStorage, now: int)
      requires db.Valid()
      modifies this, db`users, storage
      ensures db.Valid()
      ensures |old(db.users.rows)| == 0 ==> db.users.rows == [NewUser(DefaultAdmin, old(db.users.next), now)]
      ensures |old(db.users.rows)| != 0 ==> db.users == old(db.users)
      ensures listeners == old(listeners)
      ensures match RestoredSession(old(storage.currentUser), old(storage.authToken))
              case Some((u, t)) =>
                currentUser == u && authToken == Some(t) && calls == old(calls) + Broadcast(listeners, u) &&
                storage.currentUser == old(storage.currentUser) && storage.authToken == old(storage.authToken)
              case None =>
                currentUser == old(currentUser) && authToken == old(authToken) && calls == old(calls) &&
                if old(storage.currentUser).Unreadable? && Truthy(old(storage.authToken))
                then storage.currentUser == NoSavedUser && storage.authToken == None
                else storage.currentUser == old(storage.currentUser) && storage.authToken == old(storage.authToken)
      ensures storage.lastSyncTimestamp == old(storage.lastSyncTimestamp)
    {
      if |db.users.rows| == 0 {
        var _ := db.AddUser(DefaultAdmin, now);
      }
      var saved := storage.currentUser;
      var token := storage.authToken;
      if saved != NoSavedUser && Truthy(token) {
        match saved {
          case SavedJson(u) =>
            currentUser := u;
            authToken := token;
            NotifyListeners();
          case Unreadable =>
            storage.currentUser := NoSavedUser;
            storage.authToken := None;
        }
      }
    }

    /** `login(credentials)`: a session the backend grants is taken with its
        token; otherwise the local users are searched, and a match becomes
        the session without touching the token. No match changes nothing. */
    method Login(db: Database, storage: BrowserStorage, backend: Option<(AuthUser, string)>,
                 email: string, password: string) returns (r: Option<AuthUser>)
      modifies this`currentUser, this`authToken, this`calls, storage
      ensures backend.Some? ==> r == Some(backend.value.0) && authToken == Some(backend.value.1) &&
                                storage.authToken == Some(backend.value.1)
      ensures backend.None? ==> r == LocalLogin(db.users.rows, email, password) &&
                                authToken == old(authToken) && storage.authToken == old(storage.authToken)
      ensures r.Some? ==> currentUser == r && storage.currentUser == SavedJson(r) &&
                          calls == old(calls) + Broadcast(listeners, r)
      ensures r.None? ==> currentUser == old(currentUser) && calls == old(calls) &&
                          storage.currentUser == old(storage.currentUser)
      ensures storage.lastSyncTimestamp == old(storage.lastSyncTimestamp)
    {
      match backend {
        case Some((user, token)) =>
          currentUser := Some(user);
          authToken := Some(token);
          storage.currentUser := SavedJson(currentUser);
          storage.authToken := Some(token);
          NotifyListeners();
          r := currentUser;
        case None =>
          r := LocalLogin(db.users.rows, email, password);
          if r.Some? {
            currentUser := r;
            storage.currentUser := SavedJson(r);
            NotifyListeners();
          }
      }
    }

    /** `register(data)`: refused when the email is in use ignoring case;
        otherwise the user is added (active, under a generated id) and
        becomes the session, which is not written to storage. */
    method Register(db: Database, email: string, password: string, name: string, role: Role, now: int)
      returns (r: Registration)
      requires db.Valid()
      modifies this`currentUser, this`calls, db`users
      ensures db.Valid()
      ensures r == EmailTaken <==> EmailInUse(old(db.users.rows), email)
      ensures r == EmailTaken ==> db.users == old(db.users) && currentUser == old(currentUser) && calls == old(calls)
      ensures r.Registered? ==>
                var u := NewUser(User(0, name, email, password, role, true, 0, 0), old(db.users.next), now);
                db.users.rows == old(db.users.rows) + [u] &&
                r.user == Some(SessionUser(u)) && currentUser == r.user &&
                calls == old(calls) + Broadcast(listeners, r.user)
    {
      if EmailInUse(db.users.rows, email) {
        return EmailTaken;
      }
      var id := db.AddUser(User(0, name, email, password, role, true, 0, 0), now);
      var created := Get(db.users.rows, UserKey, id);
      GetRow(db.users.rows, UserKey, |db.users.rows| - 1);
      if created.Some? && created.value.id != 0 {
        currentUser := Some(SessionUser(created.value));
        NotifyListeners();
        r := Registered(currentUser);
      } else {
        r := Registered(None);
      }
    }

    /** `logout()`: the session and both storage items are cleared and the
        listeners hear null. */
    method Logout(storage: BrowserStorage)
      modifies this`currentUser, this`authToken, this`calls, storage
      ensures currentUser == None && authToken == None
      ensures storage.currentUser == NoSavedUser && storage.authToken == None
      ensures storage.lastSyncTimestamp == old(storage.lastSyncTimestamp)
      ensures calls == old(calls) + Broadcast(listeners, None)
    {
      currentUser := None;
      authToken := None;
      storage.currentUser := NoSavedUser;
      storage.authToken := None;
      NotifyListeners();
    }

    /** `checkUserExists(email)`. */
    function CheckUserExists(db: Database, email: string): (r: bool)
      reads db
      ensures r <==> exists i :: 0 <= i < |db.users.rows| && db.users.rows[i].isActive &&
                                 ToLower(db.users.rows[i].email) == ToLower(email)
    {
      ActiveUserExists(db.users.rows, email)
    }

    /** `updateProfile(userId, updates)`: the stored user is updated, and the
        session follows when it is that user's. */
    method UpdateProfile(db: Database, userId: int, p: UserPatch, now: int) returns (ok: bool)
      requires db.Valid()
      modifies this`currentUser, this`calls, db`users
      ensures db.Valid() && ok
      ensures db.users == Update(old(db.users), UserKey, userId, UserChanges(p, now))
      ensures var stored := Get(db.users.rows, UserKey, userId);
              if old(currentUser).Some? && old(currentUser).value.id == userId && stored.Some? && userId != 0
              then currentUser == Some(SessionUser(stored.value)) && calls == old(calls) + Broadcast(listeners, currentUser)
              else currentUser == old(currentUser) && calls == old(calls)
    {
      db.UpdateUser(userId, p, now);
      if currentUser.Some? && currentUser.value.id == userId {
        var updated := Get(db.users.rows, UserKey, userId);
        if updated.Some? && updated.value.id != 0 {
          currentUser := Some(SessionUser(updated.value));
          NotifyListeners();
        }
      }
      ok := true;
    }

    /** `changePassword(userId, current, new)`: only with the right current
        password; then only the password (and `updatedAt`) changes. */
    method ChangePassword(db: Database, userId: int, currentPassword: string, newPassword: string, now: int)
      returns (ok: bool)
      requires db.Valid()
      modifies db`users
      ensures db.Valid()
      ensures ok <==> var u := Get(old(db.users.rows), UserKey, userId);
                      u.Some? && u.value.password == currentPassword
      ensures ok ==> db.users == Update(old(db.users), UserKey, userId, UserChanges(PasswordChange(newPassword), now))
      ensures ok ==> Get(db.users.rows, UserKey, userId).Some? &&
                     Get(db.users.rows, UserKey, userId).value.password == newPassword
      ensures !ok ==> db.users == old(db.users)
    {
      var user := Get(db.users.rows, UserKey, userId);
      if user.None? || user.value.password != currentPassword {
        return false;
      }
      db.UpdateUser(userId, PasswordChange(newPassword), now);
      ok := true;
    }
  }

  /** The `{ password }` update object. */
  function PasswordChange(password: string): UserPatch {
    UserPatch(None, None, Some(password), None, None)
  }

  lemma BroadcastAppend(a: seq<Listener>, b: seq<Listener>, user: Option<AuthUser>)
    ensures Broadcast(a + b, user) == Broadcast(a, user) + Broadcast(b, user)
  {
  }
}
