/**
 * The session provider: a signed-in user kept in memory and in two storage
 * keys (the user and its expiry time in milliseconds). A session lives for a
 * fixed hour from sign-in, is never extended, and is dropped on sign-out, on
 * a reload after expiry, or by the periodic check. The clock is the `now`
 * parameter; the login and logout calls are parameters saying whether the
 * call resolved.
 */
module Auth {
  import opened Api
  import opened Storage

  const UserStorageKey: string := "buddy_user"
  const UserExpiryKey: string := "buddy_user_expiry"

  /** One hour, in milliseconds. */
  const SessionTtlMs: int := 60 * 60 * 1000

  /** What the provider holds: the in-memory user and the whole storage. */
  datatype Session = Session(user: Option<User>, entries: map<string, Stored>)

  function StoredUser(entries: map<string, Stored>): Option<User>
  {
    if UserStorageKey in entries && entries[UserStorageKey].UserValue? then Some(entries[UserStorageKey].user) else None
  }

  function StoredExpiry(entries: map<string, Stored>): Option<int>
  {
    if UserExpiryKey in entries && entries[UserExpiryKey].ExpiryValue? then Some(entries[UserExpiryKey].ms) else None
  }

  /** The storage keys other than the two session keys are left alone. */
  ghost predicate OthersUnchanged(before: map<string, Stored>, after: map<string, Stored>)
  {
    forall k :: k != UserStorageKey && k != UserExpiryKey ==>
      (k in after <==> k in before) && (k in after ==> after[k] == before[k])
  }

  /**
   * The lazy initial user: the stored user when both keys are there and the
   * expiry lies strictly in the future; when both are there but expired, both
   * keys are removed.
   */
  function Rehydrate(entries: map<string, Stored>, now: int): (s: Session)
    ensures s.user.Some? <==>
      StoredUser(entries).Some? && StoredExpiry(entries).Some? && now < StoredExpiry(entries).value
    ensures s.user.Some? ==> s.user == StoredUser(entries)
    ensures StoredUser(entries).Some? && StoredExpiry(entries).Some? && now >= StoredExpiry(entries).value ==>
      UserStorageKey !in s.entries && UserExpiryKey !in s.entries
    ensures !(StoredUser(entries).Some? && StoredExpiry(entries).Some? && now >= StoredExpiry(entries).value) ==>
      s.entries == entries
    ensures OthersUnchanged(entries, s.entries)
  {
    match (StoredUser(entries), StoredExpiry(entries))
    case (Some(u), Some(expiry)) =>
      if now < expiry then Session(Some(u), entries)
      else Session(None, entries - {UserStorageKey, UserExpiryKey})
    case _ => Session(None, entries)
  }

  /** persistUser: store the user and an expiry one hour from now, and hold the user in memory. */
  function AfterPersist(s: Session, userData: User, now: int): (r: Session)
    ensures r.user == Some(userData)
    ensures StoredUser(r.entries) == Some(userData)
    ensures StoredExpiry(r.entries) == Some(now + SessionTtlMs)
    ensures OthersUnchanged(s.entries, r.entries)
  {
    Session(Some(userData), s.entries[UserStorageKey := UserValue(userData)][UserExpiryKey := ExpiryValue(now + SessionTtlMs)])
  }

  /** clearStoredUser: remove both keys and forget the user. */
  function AfterClear(s: Session): (r: Session)
    ensures r.user == None
    ensures UserStorageKey !in r.entries && UserExpiryKey !in r.entries
    ensures OthersUnchanged(s.entries, r.entries)
  {
    Session(None, s.entries - {UserStorageKey, UserExpiryKey})
  }

  /**
   * signIn: once the login call resolves, persist a user whose name and email
   * are both the credential's email; a rejected call changes nothing.
   */
  function AfterSignIn(s: Session, credentials: LoginCredentials, now: int, loginResolved: bool): (r: Session)
    ensures loginResolved ==> r.user == Some(User(credentials.email, credentials.email))
    ensures loginResolved ==> StoredUser(r.entries) == Some(User(credentials.email, credentials.email))
    ensures loginResolved ==> StoredExpiry(r.entries) == Some(now + SessionTtlMs)
    ensures loginResolved ==> OthersUnchanged(s.entries, r.entries)
    ensures !loginResolved ==> r == s
  {
    if loginResolved then AfterPersist(s, User(credentials.email, credentials.email), now) else s
  }

  /** signOut: once the logout call resolves, clear the session; a rejected call changes nothing. */
  function AfterSignOut(s: Session, logoutResolved: bool): (r: Session)
    ensures logoutResolved ==> r.user == None && StoredUser(r.entries) == None && StoredExpiry(r.entries) == None
    ensures logoutResolved ==> UserStorageKey !in r.entries && UserExpiryKey !in r.entries
    ensures logoutResolved ==> OthersUnchanged(s.entries, r.entries)
    ensures !logoutResolved ==> r == s
  {
    if logoutResolved then AfterClear(s) else s
  }

  /** checkExpiry: clear exactly when an expiry is stored and `now` has reached it. */
  function AfterCheck(s: Session, now: int): (r: Session)
    ensures StoredExpiry(s.entries).Some? && now >= StoredExpiry(s.entries).value ==> r == AfterClear(s)
    ensures !(StoredExpiry(s.entries).Some? && now >= StoredExpiry(s.entries).value) ==> r == s
  {
    match StoredExpiry(s.entries)
    case Some(expiry) => if now >= expiry then AfterClear(s) else s
    case None => s
  }

  /** A second check, at any later or earlier time, after one that cleared has no effect. */
  lemma CheckAfterClearingIsNoOp(s: Session, now: int, later: int)
    requires AfterCheck(s, now) != s
    ensures AfterCheck(AfterCheck(s, now), later) == AfterCheck(s, now)
  {
  }

  /** Running the check twice at the same time is the same as running it once. */
  lemma CheckIsIdempotent(s: Session, now: int)
    ensures AfterCheck(AfterCheck(s, now), now) == AfterCheck(s, now)
  {
  }

  /** At exactly `now == expiry`, the session counts as expired on reload and by the periodic check. */
  lemma ExpiryInstantIsExpired(entries: map<string, Stored>, user: Option<User>, now: int)
    requires StoredUser(entries).Some?
    requires StoredExpiry(entries) == Some(now)
    ensures Rehydrate(entries, now).user == None
    ensures AfterCheck(Session(user, entries), now) == AfterClear(Session(user, entries))
  {
  }

  /**
   * A session made by persistUser at time t survives a check, and a reload,
   * exactly while the clock is before t + one hour; from then on the check
   * clears it and a reload drops it.
   */
  lemma SessionLifetime(s: Session, userData: User, t: int, later: int)
    ensures var p := AfterPersist(s, userData, t);
      (later < t + SessionTtlMs ==> AfterCheck(p, later) == p && Rehydrate(p.entries, later) == p)
      && (later >= t + SessionTtlMs ==>
            AfterCheck(p, later) == AfterClear(p) && Rehydrate(p.entries, later) == AfterClear(p))
  {
    var p := AfterPersist(s, userData, t);
    assert StoredUser(p.entries) == Some(userData);
    assert StoredExpiry(p.entries) == Some(t + SessionTtlMs);
  }

  /** A reload after a resolved sign-in restores the signed-in user exactly while the hour has not passed. */
  lemma ReloadAfterSignIn(s: Session, credentials: LoginCredentials, t: int, later: int)
    ensures var p := AfterSignIn(s, credentials, t, true);
            Rehydrate(p.entries, later).user
              == if later < t + SessionTtlMs then Some(User(credentials.email, credentials.email)) else None
  {
  }

  /** The hour in minutes: read after 59 minutes the session is active, after 61 it is gone. */
  lemma FiftyNineAndSixtyOneMinutes(s: Session, userData: User, t: int)
    ensures var p := AfterPersist(s, userData, t);
      Rehydrate(p.entries, t + 59 * 60000).user == Some(userData)
      && AfterCheck(p, t + 61 * 60000).user == None
      && StoredUser(AfterCheck(p, t + 61 * 60000).entries) == None
  {
    SessionLifetime(s, userData, t, t + 59 * 60000);
    SessionLifetime(s, userData, t, t + 61 * 60000);
  }

  /** The provider object: the user state and the storage it shares with the rest of the page. */
  class AuthProvider {
    var user: Option<User>
    const storage: LocalStorage

    function State(): Session
      reads this, storage
    {
      Session(user, storage.entries)
    }

    /** Mount: the lazy initial user, read with the clock at `now`. */
    constructor (store: LocalStorage, now: int)
      modifies store
      ensures storage == store
      ensures State() == Rehydrate(old(store.entries), now)
    {
      storage := store;
      var storedUser := store.GetItem(UserStorageKey);
      var expiryTime := store.GetItem(UserExpiryKey);
      user := None;
      if storedUser.Some? && storedUser.value.UserValue? && expiryTime.Some? && expiryTime.value.ExpiryValue? {
        if now < expiryTime.value.ms {
          user := Some(storedUser.value.user);
        } else {
          store.RemoveItem(UserStorageKey);
          store.RemoveItem(UserExpiryKey);
        }
      }
    }

    method PersistUser(userData: User, now: int)
      modifies this, storage
      ensures State() == AfterPersist(old(State()), userData, now)
    {
      var expiryTime := now + 60 * 60 * 1000;
      storage.SetItem(UserStorageKey, UserValue(userData));
      storage.SetItem(UserExpiryKey, ExpiryValue(expiryTime));
      user := Some(userData);
    }

    method ClearStoredUser()
      modifies this, storage
      ensures State() == AfterClear(old(State()))
    {
      storage.RemoveItem(UserStorageKey);
      storage.RemoveItem(UserExpiryKey);
      user := None;
    }

    method SignIn(credentials: LoginCredentials, now: int, loginResolved: bool)
      modifies this, storage
      ensures State() == AfterSignIn(old(State()), credentials, now, loginResolved)
    {
      if loginResolved {
        var userData := User(credentials.email, credentials.email);
        PersistUser(userData, now);
      }
    }

    method SignOut(logoutResolved: bool)
      modifies this, storage
      ensures State() == AfterSignOut(old(State()), logoutResolved)
    {
      if logoutResolved {
        ClearStoredUser();
      }
    }

    /** One tick of the one-minute interval, with the clock at `now`. */
    method CheckExpiry(now: int)
      modifies this, storage
      ensures State() == AfterCheck(old(State()), now)
    {
      var expiryTime := storage.GetItem(UserExpiryKey);
      if expiryTime.Some? && expiryTime.value.ExpiryValue? && now >= expiryTime.value.ms {
        ClearStoredUser();
      }
    }
  }
}
