/**
 * The authentication slice of the client store (frontend/store/slices/authSlice.ts):
 * the session the client holds (user, token, isAuthenticated), the browser's
 * local storage it mirrors the session into, and the reducers `login`,
 * `logout` and `rehydrate`. The stored user is kept as its JSON text, and
 * `JSON.parse` of that text gives back the same user.
 */
module AuthSlice {
  import opened Wrappers
  import opened JsText

  /** A user as its JSON text; the text of an object is never empty. */
  type UserJson = s: string | s != "" witness "{}"

  /** Local storage: string keys to string values. */
  type Storage = map<string, string>

  /** `AuthState`; `None` is `null`. */
  datatype AuthState = AuthState(user: Option<UserJson>, isAuthenticated: bool, token: Option<string>)

  /** `initialState` (lines 15-19). */
  const InitialState := AuthState(None, false, None)

  /** `localStorage.getItem(key)`: the stored value, `null` when there is none. */
  function GetItem(storage: Storage, key: string): Option<string> {
    if key in storage then Some(storage[key]) else None
  }

  /** A session is consistent when it is authenticated exactly when it holds a token, and holds a user exactly then too. */
  predicate Consistent(s: AuthState) {
    (s.isAuthenticated <==> s.token.Some?) && (s.user.Some? <==> s.token.Some?)
  }

  /** The session the client holds after `login` with this payload (lines 28-30). */
  function LoggedIn(user: UserJson, token: string): (r: AuthState)
    ensures Consistent(r) && r.isAuthenticated
    ensures r.user == Some(user) && r.token == Some(token)
  {
    AuthState(Some(user), true, Some(token))
  }

  /**
   * The storage after `login` (lines 32-35): in a browser, "user" and "token"
   * hold the payload; no other key changes, and outside a browser nothing does.
   */
  function StoredAfterLogin(storage: Storage, isBrowser: bool, user: UserJson, token: string): (r: Storage)
    ensures isBrowser ==> GetItem(r, "user") == Some(user) && GetItem(r, "token") == Some(token)
    ensures forall k :: !isBrowser || (k != "user" && k != "token") ==> GetItem(r, k) == GetItem(storage, k)
  {
    if isBrowser then storage["user" := user]["token" := token] else storage
  }

  /**
   * The storage after `logout` (lines 43-46): in a browser, "user" and "token"
   * are gone; no other key changes, and outside a browser nothing does.
   */
  function StoredAfterLogout(storage: Storage, isBrowser: bool): (r: Storage)
    ensures isBrowser ==> GetItem(r, "user") == None && GetItem(r, "token") == None
    ensures forall k :: !isBrowser || (k != "user" && k != "token") ==> GetItem(r, k) == GetItem(storage, k)
  {
    if isBrowser then storage - {"user", "token"} else storage
  }

  /**
   * The session after `rehydrate` (lines 49-60): in a browser, when both the
   * stored user and the stored token are non-empty, the session takes them;
   * otherwise it stays as it was.
   */
  function Rehydrated(s: AuthState, storage: Storage, isBrowser: bool): (r: AuthState)
    ensures !isBrowser ==> r == s
    ensures r != s ==> r.isAuthenticated && r.token == GetItem(storage, "token") && r.user == GetItem(storage, "user")
    ensures Consistent(s) ==> Consistent(r)
  {
    var storedUser := GetItem(storage, "user");
    var storedToken := GetItem(storage, "token");
    if isBrowser && Truthy(storedUser) && Truthy(storedToken) then
      AuthState(Some(storedUser.value), true, Some(storedToken.value))
    else s
  }

  /** The initial state is consistent, and every reducer leaves a consistent session. */
  lemma ReducersKeepConsistent(s: AuthState, storage: Storage, isBrowser: bool, user: UserJson, token: string)
    ensures Consistent(InitialState)
    ensures Consistent(LoggedIn(user, token))
    ensures Consistent(s) ==> Consistent(Rehydrated(s, storage, isBrowser))
  {
  }

  /**
   * `rehydrate` changes the session only in a browser whose storage holds a
   * non-empty user and a non-empty token, and then the session is those two,
   * authenticated.
   */
  lemma RehydrateNeedsBoth(s: AuthState, storage: Storage, isBrowser: bool)
    ensures Rehydrated(s, storage, isBrowser) != s ==>
      isBrowser && Truthy(GetItem(storage, "user")) && Truthy(GetItem(storage, "token"))
    ensures isBrowser && Truthy(GetItem(storage, "user")) && Truthy(GetItem(storage, "token")) ==>
      var r := Rehydrated(s, storage, isBrowser);
      r.isAuthenticated && r.user == GetItem(storage, "user") && r.token == GetItem(storage, "token")
  {
  }

  /**
   * A reload after `login` in a browser restores the session, whatever state
   * the store started in, provided the token is not empty.
   */
  lemma ReloadAfterLogin(s: AuthState, storage: Storage, user: UserJson, token: string)
    requires token != ""
    ensures Rehydrated(s, StoredAfterLogin(storage, true, user, token), true) == LoggedIn(user, token)
  {
    var stored := StoredAfterLogin(storage, true, user, token);
    assert GetItem(stored, "user") == Some(user);
    assert GetItem(stored, "token") == Some(token);
  }

  /** A login with an empty token is not restored by a reload: the fresh store stays logged out. */
  lemma EmptyTokenNotRestored(storage: Storage, user: UserJson)
    ensures Rehydrated(InitialState, StoredAfterLogin(storage, true, user, ""), true) == InitialState
  {
    assert GetItem(StoredAfterLogin(storage, true, user, ""), "token") == Some("");
  }

  /** A reload after `logout` leaves a fresh store logged out, in a browser or not. */
  lemma ReloadAfterLogout(storage: Storage, isBrowser: bool)
    ensures Rehydrated(InitialState, StoredAfterLogout(storage, isBrowser), isBrowser) == InitialState
  {
    if isBrowser {
      assert GetItem(StoredAfterLogout(storage, isBrowser), "user") == None;
    }
  }

  /** The store of one client: the slice's state and the storage it writes. */
  class AuthStore {
    var user: Option<UserJson>
    var isAuthenticated: bool
    var token: Option<string>
    var storage: Storage
    /** `typeof window !== "undefined"` (line 21). */
    const isBrowser: bool

    /** The slice's state. */
    function State(): AuthState
      reads this
    {
      AuthState(user, isAuthenticated, token)
    }

    /** A store created with `initialState`, over whatever the storage already holds. */
    constructor (isBrowser: bool, storage: Storage)
      ensures State() == InitialState
      ensures this.isBrowser == isBrowser && this.storage == storage
    {
      user := None;
      isAuthenticated := false;
      token := None;
      this.storage := storage;
      this.isBrowser := isBrowser;
    }

    /** `login` (lines 27-36). */
    method Login(payloadUser: UserJson, payloadToken: string)
      modifies this
      ensures State() == LoggedIn(payloadUser, payloadToken)
      ensures storage == StoredAfterLogin(old(storage), isBrowser, payloadUser, payloadToken)
    {
      user := Some(payloadUser);
      token := Some(payloadToken);
      isAuthenticated := true;
      if isBrowser {
        storage := storage["user" := payloadUser];
        storage := storage["token" := payloadToken];
      }
    }

    /** `logout` (lines 38-47). */
    method Logout()
      modifies this
      ensures State() == InitialState
      ensures storage == StoredAfterLogout(old(storage), isBrowser)
    {
      user := None;
      token := None;
      isAuthenticated := false;
      if isBrowser {
        storage := storage - {"user"};
        storage := storage - {"token"};
      }
    }

    /** `rehydrate` (lines 49-60): the storage is only read. */
    method Rehydrate()
      modifies this
      ensures State() == Rehydrated(old(State()), old(storage), isBrowser)
      ensures storage == old(storage)
      ensures Consistent(old(State())) ==> Consistent(State())
    {
      if isBrowser {
        var storedUser := GetItem(storage, "user");
        var storedToken := GetItem(storage, "token");
        if Truthy(storedUser) && Truthy(storedToken) {
          user := Some(storedUser.value);
          token := Some(storedToken.value);
          isAuthenticated := true;
        }
      }
    }
  }
}
