/**
 * The session store of src/store/authStore.js: four fields (`token`, `user`,
 * `isAuthenticated`, `loading`) kept in step with two `localStorage` keys,
 * `token` and `user` (the latter JSON-encoded).
 *
 * Each action is first written as a pure step on a World (the four fields
 * and, in a browser, the stored items); the Store class then performs the
 * same action on its fields and its LocalStorage object and is proved to
 * end in exactly the World the step describes. Outside a browser
 * (`typeof window === 'undefined'`) the store has no storage object and the
 * World has no items.
 */
module AuthStore {

  import opened Wrappers
  import opened JsValue
  import opened JsonStringify
  import opened JsonParse
  import JsonRoundTrip
  import opened UserId
  import opened Storage

  datatype Session = Session(token: Option<string>, user: Value, isAuthenticated: bool, loading: bool)

  /** The store's fields and, in a browser, what `localStorage` holds. */
  datatype World = World(session: Session, storage: Option<map<string, string>>)

  /** The state `logout` leaves, and the one a corrupt stored user leads to. */
  const SignedOut := Session(None, Null, false, false)

  /** `!!localStorage.getItem(key)`: the key is present and its string is not empty. */
  predicate Stored(items: map<string, string>, key: string)
  {
    key in items && items[key] != ""
  }

  /** JSON.parse of a stored user, then normalisation; None when JSON.parse throws. */
  function DecodeUser(text: string): (r: Option<Value>)
    ensures r.Some? <==> Parse(text).Some?
    ensures r.Some? ==> r.value == Null || IdFirst(r.value)
  {
    match Parse(text)
    case None => None
    case Some(v) => Some(Normalize(v))
  }

  // ---------------------------------------------------------------------
  // The actions as steps on a World

  /** The state the store is created with (lines 7-23). */
  function Hydrate(storage: Option<map<string, string>>): Session
  {
    match storage
    case None => Session(None, Null, false, true)
    case Some(items) =>
      var user :=
        if !Stored(items, "user") then Null
        else match DecodeUser(items["user"]) case Some(u) => u case None => Null;
      Session(Lookup(items, "token"), user, Stored(items, "token"), true)
  }

  function SetAuthNext(w: World, token: string, userData: Value): World
  {
    var user := Normalize(userData);
    World(Session(Some(token), user, true, false),
          match w.storage
          case None => None
          case Some(items) => Some(items["token" := token]["user" := Stringify(user)]))
  }

  function LogoutNext(w: World): World
  {
    World(SignedOut,
          match w.storage
          case None => None
          case Some(items) => Some(items - {"token", "user"}))
  }

  function SetLoadingNext(w: World, isLoading: bool): World
  {
    w.(session := w.session.(loading := isLoading))
  }

  function InitializeNext(w: World): World
  {
    match w.storage
    case None => SetLoadingNext(w, false)
    case Some(items) =>
      if Stored(items, "token") && Stored(items, "user") then
        match DecodeUser(items["user"])
        case Some(user) => World(Session(Some(items["token"]), user, true, false), w.storage)
        case None => World(SignedOut, Some(items - {"token", "user"}))
      else SetLoadingNext(w, false)
  }

  /** Importing the module: the store is created and at once initialised (line 94). */
  function Load(storage: Option<map<string, string>>): World
  {
    InitializeNext(World(Hydrate(storage), storage))
  }

  // ---------------------------------------------------------------------
  // Properties of the steps

  /**
   * What every state of the store satisfies: the user is null or a
   * normalised record; an authenticated store holds a token and a non-empty
   * token means authenticated; in a browser the token is the stored one.
   */
  predicate Consistent(w: World)
  {
    var s := w.session;
    (s.user == Null || IdFirst(s.user))
    && (s.isAuthenticated ==> s.token.Some?)
    && (s.token.Some? && s.token.value != "" ==> s.isAuthenticated)
    && (w.storage.Some? ==> s.token == Lookup(w.storage.value, "token"))
  }

  lemma LoadConsistent(storage: Option<map<string, string>>)
    ensures Consistent(World(Hydrate(storage), storage))
    ensures Consistent(Load(storage))
  {
    InitializeConsistent(World(Hydrate(storage), storage));
  }

  lemma InitializeConsistent(w: World)
    requires Consistent(w)
    ensures Consistent(InitializeNext(w))
  {
  }

  lemma ActionsConsistent(w: World, token: string, userData: Value, isLoading: bool)
    requires Consistent(w)
    ensures Consistent(SetAuthNext(w, token, userData))
    ensures Consistent(LogoutNext(w))
    ensures Consistent(SetLoadingNext(w, isLoading))
  {
  }

  lemma LogoutIdempotent(w: World)
    ensures LogoutNext(LogoutNext(w)) == LogoutNext(w)
  {
    if w.storage.Some? {
      var items := w.storage.value - {"token", "user"};
      assert items - {"token", "user"} == items;
    }
  }

  /** A second `initializeAuth` with no write in between changes nothing. */
  lemma InitializeIdempotent(w: World)
    ensures InitializeNext(InitializeNext(w)) == InitializeNext(w)
  {
  }

  /**
   * With token or user missing or empty, or outside a browser,
   * `initializeAuth` only stops loading: a session already in memory is
   * kept, authenticated or not, and nothing is removed from storage.
   */
  lemma MissingKeysOnlyStopLoading(w: World)
    requires w.storage.Some? ==> !Stored(w.storage.value, "token") || !Stored(w.storage.value, "user")
    ensures InitializeNext(w).storage == w.storage
    ensures InitializeNext(w).session == w.session.(loading := false)
  {
  }

  /** What `setAuth` writes decodes to the user it keeps. */
  lemma StoredUserDecodes(userData: Value)
    requires !Truthy(userData) || JsonLike(userData)
    ensures DecodeUser(Stringify(Normalize(userData))) == Some(Normalize(userData))
  {
    var user := Normalize(userData);
    if Truthy(userData) {
      JsonRoundTrip.JsonLikeWellKeyed(userData);
      NormalizeWellKeyed(userData);
    }
    JsonRoundTrip.ParseStringify(user);
    NormalizeSurvivesJson(userData);
  }

  /** `initializeAuth` right after `setAuth` finds the session `setAuth` left. */
  lemma SetAuthThenInitialize(w: World, token: string, userData: Value)
    requires !Truthy(userData) || JsonLike(userData)
    ensures InitializeNext(SetAuthNext(w, token, userData)) == SetAuthNext(w, token, userData)
  {
    StoredUserDecodes(userData);
  }

  /** Reloading the page after `setAuth` with a non-empty token restores the same session. */
  lemma ReloadAfterSetAuth(w: World, token: string, userData: Value)
    requires w.storage.Some? && token != ""
    requires !Truthy(userData) || JsonLike(userData)
    ensures Load(SetAuthNext(w, token, userData).storage) == SetAuthNext(w, token, userData)
  {
    StoredUserDecodes(userData);
  }

  /**
   * The user the authentication service answers with arrives as JSON, so it
   * meets the requirement above: reloading after `setAuth` with it restores
   * the same session.
   */
  lemma ReloadAfterSetAuthFromJson(w: World, token: string, response: string)
    requires w.storage.Some? && token != ""
    requires Parse(response).Some?
    ensures Load(SetAuthNext(w, token, Parse(response).value).storage) == SetAuthNext(w, token, Parse(response).value)
  {
    JsonRoundTrip.ParseJsonLike(response);
    ReloadAfterSetAuth(w, token, Parse(response).value);
  }

  /** After `setAuth` with an empty token a reload keeps token and user but is no longer authenticated. */
  lemma ReloadAfterEmptyToken(w: World, userData: Value)
    requires w.storage.Some?
    requires !Truthy(userData) || JsonLike(userData)
    ensures SetAuthNext(w, "", userData).session.isAuthenticated
    ensures Load(SetAuthNext(w, "", userData).storage).session == Session(Some(""), Normalize(userData), false, false)
  {
    StoredUserDecodes(userData);
  }

  lemma ReloadAfterLogout(w: World)
    requires w.storage.Some?
    ensures Load(LogoutNext(w).storage) == LogoutNext(w)
  {
  }

  /** A stored user that is not JSON: loading the module clears both keys and signs out. */
  lemma CorruptUserCleared()
    ensures Load(Some(map["token" := "abc", "user" := "{not json"])) == World(SignedOut, Some(map[]))
  {
    var items := map["token" := "abc", "user" := "{not json"];
    assert Parse("{not json") == None by {
      assert ParseValue("{not json") == ParseObject("not json");
    }
    assert items - {"token", "user"} == map[];
  }

  /** A stored user `null` is accepted: the store is authenticated with no user. */
  lemma StoredNullUser()
    ensures Load(Some(map["token" := "abc", "user" := "null"])).session == Session(Some("abc"), Null, true, false)
  {
    assert Parse("null") == Some(Null) by {
      assert ParseValue("null") == Some((Null, []));
    }
  }

  /** A stored empty token is held but does not authenticate. */
  lemma EmptyStoredToken()
    ensures Load(Some(map["token" := ""])) == World(Session(Some(""), Null, false, false), Some(map["token" := ""]))
  {
  }

  /** Outside a browser the store starts signed out and only stops loading. */
  lemma NoWindow()
    ensures Hydrate(None) == Session(None, Null, false, true)
    ensures Load(None) == World(SignedOut, None)
  {
  }

  // ---------------------------------------------------------------------
  // The store

  class Store {
    var token: Option<string>
    var user: Value
    var isAuthenticated: bool
    var loading: bool
    /** `localStorage`, or null outside a browser. */
    const storage: LocalStorage?

    function Items(): Option<map<string, string>>
      reads storage
    {
      if storage == null then None else Some(storage.items)
    }

    function Snapshot(): World
      reads this, storage
    {
      World(Session(token, user, isAuthenticated, loading), Items())
    }

    /** The initial state (lines 7-23); storage is only read. */
    constructor(storage: LocalStorage?)
      ensures this.storage == storage
      ensures Snapshot() == World(Hydrate(Items()), Items())
    {
      this.storage := storage;
      if storage == null {
        token := None;
        user := Null;
        isAuthenticated := false;
      } else {
        var storedToken := storage.GetItem("token");
        token := storedToken;
        var userString := storage.GetItem("user");
        if userString.Some? && userString.value != "" {
          var decoded := DecodeUser(userString.value);
          user := if decoded.Some? then decoded.value else Null;
        } else {
          user := Null;
        }
        var t := storage.GetItem("token");
        isAuthenticated := t.Some? && t.value != "";
      }
      loading := true;
    }

    /** Importing the module: creation followed by `initializeAuth()` (line 94). */
    static method Create(storage: LocalStorage?) returns (s: Store)
      modifies storage
      ensures fresh(s) && s.storage == storage
      ensures s.Snapshot() == Load(old(if storage == null then None else Some(storage.items)))
    {
      s := new Store(storage);
      s.InitializeAuth();
    }

    method SetAuth(newToken: string, userData: Value)
      modifies this, storage
      ensures Snapshot() == SetAuthNext(old(Snapshot()), newToken, userData)
    {
      var userToStore := Normalize(userData);
      if storage != null {
        storage.SetItem("token", newToken);
        storage.SetItem("user", Stringify(userToStore));
      }
      token, user, isAuthenticated, loading := Some(newToken), userToStore, true, false;
    }

    method Logout()
      modifies this, storage
      ensures Snapshot() == LogoutNext(old(Snapshot()))
      ensures Snapshot().session == SignedOut
    {
      if storage != null {
        storage.RemoveItem("token");
        storage.RemoveItem("user");
        RemoveBoth(old(storage.items), "token", "user");
      }
      token, user, isAuthenticated, loading := None, Null, false, false;
    }

    /** `set({ loading })` merges one field: nothing else, and no storage, changes. */
    method SetLoading(isLoading: bool)
      modifies this
      ensures Snapshot() == SetLoadingNext(old(Snapshot()), isLoading)
      ensures token == old(token) && user == old(user) && isAuthenticated == old(isAuthenticated)
      ensures loading == isLoading && Items() == old(Items())
    {
      loading := isLoading;
    }

    method InitializeAuth()
      modifies this, storage
      ensures Snapshot() == InitializeNext(old(Snapshot()))
    {
      if storage != null {
        var storedToken := storage.GetItem("token");
        var userString := storage.GetItem("user");
        if storedToken.Some? && storedToken.value != "" && userString.Some? && userString.value != "" {
          match DecodeUser(userString.value) {
            case Some(decoded) =>
              token, user, isAuthenticated, loading := storedToken, decoded, true, false;
            case None =>
              storage.RemoveItem("token");
              storage.RemoveItem("user");
              RemoveBoth(old(storage.items), "token", "user");
              token, user, isAuthenticated, loading := None, Null, false, false;
          }
        } else {
          loading := false;
        }
      } else {
        loading := false;
      }
    }
  }
}
