/** The client's session store (frontend/src/store/authStore.ts): the signed-in
    user, the token, the user's favourites and the loading and error flags,
    together with the browser's `localStorage`, where a session is kept
    between page loads. JSON encoding and decoding of the user and every
    request are function parameters. */
module AuthStore {
  import opened Wrappers
  import opened ClientTypes

  const TokenKey: string := "token"
  const UserKey: string := "user"
  const LoginFailed: string := "Error al iniciar sesión"
  const RegisterFailed: string := "Error al registrarse"

  /** The body of a successful login or registration. */
  datatype SessionBody = SessionBody(user: ClientUser, token: string)

  /** The store's fields and the storage as one value. */
  datatype AuthState = AuthState(
    user: Option<ClientUser>,
    token: Option<string>,
    favorites: seq<Favorite>,
    isLoading: bool,
    error: Option<string>,
    storage: map<string, string>)

  /** A fresh page: nothing signed in, the storage as the browser keeps it. */
  function Fresh(storage: map<string, string>): AuthState {
    AuthState(None, None, [], false, None, storage)
  }

  /** `localStorage.getItem`. */
  function GetItem(storage: map<string, string>, key: string): (r: Option<string>)
    ensures r.Some? <==> key in storage
    ensures r.Some? ==> r.value == storage[key]
  {
    if key in storage then Some(storage[key]) else None
  }

  /** `fetchFavorites`: nothing without a token. */
  function FetchFavoritesStep(s: AuthState, getAll: string -> Reply<seq<Favorite>>): AuthState {
    if !Truthy(s.token) then s
    else match getAll(s.token.value)
      case Resolved(favorites) => s.(favorites := favorites)
      case Rejected(_, _) => s
  }

  /** What a successful login or registration writes: the token and the
      encoded user in storage, both in the store. */
  function SignedIn(s: AuthState, body: SessionBody, encode: ClientUser -> string): AuthState {
    s.(storage := s.storage[TokenKey := body.token][UserKey := encode(body.user)],
       user := Some(body.user), token := Some(body.token), isLoading := false)
  }

  /** `login`: the new state and the boolean handed back. The favourites are
      fetched after a success. */
  function LoginStep(s: AuthState, email: string, password: string,
                     post: (string, string) -> Reply<SessionBody>,
                     encode: ClientUser -> string, getAll: string -> Reply<seq<Favorite>>)
    : (AuthState, bool)
  {
    var t := s.(isLoading := true, error := None);
    match post(email, password)
    case Resolved(body) => (FetchFavoritesStep(SignedIn(t, body, encode), getAll), true)
    case Rejected(_, serverMessage) => (t.(error := Some(TextOr(serverMessage, LoginFailed)), isLoading := false), false)
  }

  /** `register`: as `login`, without fetching favourites. */
  function RegisterStep(s: AuthState, email: string, password: string, name: string,
                        post: (string, string, string) -> Reply<SessionBody>,
                        encode: ClientUser -> string)
    : (AuthState, bool)
  {
    var t := s.(isLoading := true, error := None);
    match post(email, password, name)
    case Resolved(body) => (SignedIn(t, body, encode), true)
    case Rejected(_, serverMessage) => (t.(error := Some(TextOr(serverMessage, RegisterFailed)), isLoading := false), false)
  }

  /** `logout`. */
  function LogoutStep(s: AuthState): AuthState {
    s.(storage := s.storage - {TokenKey, UserKey}, user := None, token := None, favorites := [])
  }

  /** `loadFromStorage`: `decode` is `JSON.parse`, `None` when it throws. */
  function LoadFromStorageStep(s: AuthState, decode: string -> Option<ClientUser>,
                               getAll: string -> Reply<seq<Favorite>>): AuthState {
    var token := GetItem(s.storage, TokenKey);
    var userText := GetItem(s.storage, UserKey);
    if Truthy(token) && Truthy(userText) then
      match decode(userText.value)
      case Some(u) => FetchFavoritesStep(s.(user := Some(u), token := token), getAll)
      case None => s.(storage := s.storage - {TokenKey, UserKey})
    else s
  }

  /** `addFavorite`: the favourites are fetched again after a success. */
  function AddFavoriteStep(s: AuthState, teamName: string, teamBadge: string, league: string,
                           add: (string, string, string, string) -> Reply<()>,
                           getAll: string -> Reply<seq<Favorite>>): AuthState {
    if !Truthy(s.token) then s
    else match add(s.token.value, teamName, teamBadge, league)
      case Resolved(_) => FetchFavoritesStep(s, getAll)
      case Rejected(_, _) => s
  }

  /** `removeFavorite`: the favourites are fetched again after a success. */
  function RemoveFavoriteStep(s: AuthState, teamName: string,
                              remove: (string, string) -> Reply<()>,
                              getAll: string -> Reply<seq<Favorite>>): AuthState {
    if !Truthy(s.token) then s
    else match remove(s.token.value, teamName)
      case Resolved(_) => FetchFavoritesStep(s, getAll)
      case Rejected(_, _) => s
  }

  /** Logging out removes the two session keys and no other, and forgets the
      user, the token and the favourites; doing it twice changes nothing more. */
  lemma LogoutEffect(s: AuthState)
    ensures var t := LogoutStep(s);
      && TokenKey !in t.storage && UserKey !in t.storage
      && (forall k :: k in s.storage && k != TokenKey && k != UserKey ==> k in t.storage && t.storage[k] == s.storage[k])
      && (forall k :: k in t.storage ==> k in s.storage)
      && t.user == None && t.token == None && t.favorites == []
      && t.isLoading == s.isLoading && t.error == s.error
      && LogoutStep(t) == t
  {
  }

  /** A successful login keeps the same token and user in storage and in the
      store, clears the error and the loading flag and answers true; a failed
      one records the server's message or the fixed default, answers false and
      leaves the session and the storage alone. */
  lemma LoginEffect(s: AuthState, email: string, password: string,
                    post: (string, string) -> Reply<SessionBody>,
                    encode: ClientUser -> string, getAll: string -> Reply<seq<Favorite>>)
    ensures var (t, ok) := LoginStep(s, email, password, post, encode, getAll);
      && !t.isLoading
      && (ok <==> post(email, password).Resolved?)
      && (ok ==>
            var body := post(email, password).data;
            && GetItem(t.storage, TokenKey) == Some(body.token)
            && GetItem(t.storage, UserKey) == Some(encode(body.user))
            && t.token == Some(body.token) && t.user == Some(body.user)
            && t.error == None)
      && (!ok ==>
            && t.error == Some(TextOr(post(email, password).serverMessage, LoginFailed))
            && t.user == s.user && t.token == s.token
            && t.favorites == s.favorites && t.storage == s.storage)
  {
  }

  /** The same for registration, with its own default message. */
  lemma RegisterEffect(s: AuthState, email: string, password: string, name: string,
                       post: (string, string, string) -> Reply<SessionBody>,
                       encode: ClientUser -> string)
    ensures var (t, ok) := RegisterStep(s, email, password, name, post, encode);
      && !t.isLoading
      && (ok <==> post(email, password, name).Resolved?)
      && (ok ==>
            var body := post(email, password, name).data;
            && GetItem(t.storage, TokenKey) == Some(body.token)
            && GetItem(t.storage, UserKey) == Some(encode(body.user))
            && t.token == Some(body.token) && t.user == Some(body.user)
            && t.error == None && t.favorites == s.favorites)
      && (!ok ==>
            && t.error == Some(TextOr(post(email, password, name).serverMessage, RegisterFailed))
            && t.user == s.user && t.token == s.token
            && t.favorites == s.favorites && t.storage == s.storage)
  {
  }

  /** Loading changes nothing unless both keys hold text; when the user text
      does not parse, only the two keys are dropped. */
  lemma LoadFromStorageEffect(s: AuthState, decode: string -> Option<ClientUser>,
                              getAll: string -> Reply<seq<Favorite>>)
    ensures !Truthy(GetItem(s.storage, TokenKey)) || !Truthy(GetItem(s.storage, UserKey)) ==>
      LoadFromStorageStep(s, decode, getAll) == s
    ensures Truthy(GetItem(s.storage, TokenKey)) && Truthy(GetItem(s.storage, UserKey))
            && decode(s.storage[UserKey]).None? ==>
      LoadFromStorageStep(s, decode, getAll) == s.(storage := s.storage - {TokenKey, UserKey})
  {
  }

  /** A session survives a page load: after a successful login with a
      non-empty token, a fresh page that decodes what was encoded loads the
      same user and token, and the same favourites when they can be fetched. */
  lemma ReloadRestoresSession(s: AuthState, email: string, password: string,
                              post: (string, string) -> Reply<SessionBody>,
                              encode: ClientUser -> string, decode: string -> Option<ClientUser>,
                              getAll: string -> Reply<seq<Favorite>>)
    requires post(email, password).Resolved?
    requires post(email, password).data.token != ""
    requires encode(post(email, password).data.user) != ""
    requires decode(encode(post(email, password).data.user)) == Some(post(email, password).data.user)
    ensures var (t, _) := LoginStep(s, email, password, post, encode, getAll);
      var r := LoadFromStorageStep(Fresh(t.storage), decode, getAll);
      && r.user == t.user && r.token == t.token && r.storage == t.storage
      && (getAll(t.token.value).Resolved? ==> r.favorites == t.favorites)
  {
    var body := post(email, password).data;
    var (t, _) := LoginStep(s, email, password, post, encode, getAll);
    assert GetItem(t.storage, TokenKey) == Some(body.token);
    assert GetItem(t.storage, UserKey) == Some(encode(body.user));
  }

  /** Without a token the favourite actions leave the store as it is. */
  lemma NoTokenNoOps(s: AuthState, teamName: string, teamBadge: string, league: string,
                     add: (string, string, string, string) -> Reply<()>,
                     remove: (string, string) -> Reply<()>,
                     getAll: string -> Reply<seq<Favorite>>)
    requires !Truthy(s.token)
    ensures FetchFavoritesStep(s, getAll) == s
    ensures AddFavoriteStep(s, teamName, teamBadge, league, add, getAll) == s
    ensures RemoveFavoriteStep(s, teamName, remove, getAll) == s
  {
  }

  /** A failed favourites fetch keeps the list; a success replaces only it. */
  lemma FetchFavoritesEffect(s: AuthState, getAll: string -> Reply<seq<Favorite>>)
    requires Truthy(s.token)
    ensures getAll(s.token.value).Rejected? ==> FetchFavoritesStep(s, getAll) == s
    ensures getAll(s.token.value).Resolved? ==>
      FetchFavoritesStep(s, getAll) == s.(favorites := getAll(s.token.value).data)
  {
  }

  /** The store, with the browser storage it writes. */
  class Store {
    var user: Option<ClientUser>
    var token: Option<string>
    var favorites: seq<Favorite>
    var isLoading: bool
    var error: Option<string>
    var storage: map<string, string>

    function Snapshot(): AuthState
      reads this
    {
      AuthState(user, token, favorites, isLoading, error, storage)
    }

    /** Nothing signed in, over the given storage. */
    constructor (initialStorage: map<string, string>)
      ensures Snapshot() == Fresh(initialStorage)
    {
      user := None;
      token := None;
      favorites := [];
      isLoading := false;
      error := None;
      storage := initialStorage;
    }

    method FetchFavorites(getAll: string -> Reply<seq<Favorite>>)
      modifies this
      ensures Snapshot() == FetchFavoritesStep(old(Snapshot()), getAll)
    {
      if !Truthy(token) {
        return;
      }
      var response := getAll(token.value);
      if response.Resolved? {
        favorites := response.data;
      }
    }

    method Login(email: string, password: string,
                 post: (string, string) -> Reply<SessionBody>,
                 encode: ClientUser -> string, getAll: string -> Reply<seq<Favorite>>)
      returns (ok: bool)
      modifies this
      ensures (Snapshot(), ok) == LoginStep(old(Snapshot()), email, password, post, encode, getAll)
    {
      isLoading := true;
      error := None;
      var response := post(email, password);
      match response {
        case Resolved(body) =>
          storage := storage[TokenKey := body.token];
          storage := storage[UserKey := encode(body.user)];
          user := Some(body.user);
          token := Some(body.token);
          isLoading := false;
          FetchFavorites(getAll);
          return true;
        case Rejected(_, serverMessage) =>
          error := Some(TextOr(serverMessage, LoginFailed));
          isLoading := false;
          return false;
      }
    }

    method Register(email: string, password: string, name: string,
                    post: (string, string, string) -> Reply<SessionBody>,
                    encode: ClientUser -> string)
      returns (ok: bool)
      modifies this
      ensures (Snapshot(), ok) == RegisterStep(old(Snapshot()), email, password, name, post, encode)
    {
      isLoading := true;
      error := None;
      var response := post(email, password, name);
      match response {
        case Resolved(body) =>
          storage := storage[TokenKey := body.token];
          storage := storage[UserKey := encode(body.user)];
          user := Some(body.user);
          token := Some(body.token);
          isLoading := false;
          return true;
        case Rejected(_, serverMessage) =>
          error := Some(TextOr(serverMessage, RegisterFailed));
          isLoading := false;
          return false;
      }
    }

    method Logout()
      modifies this
      ensures Snapshot() == LogoutStep(old(Snapshot()))
    {
      storage := storage - {TokenKey};
      storage := storage - {UserKey};
      user := None;
      token := None;
      favorites := [];
    }

    method LoadFromStorage(decode: string -> Option<ClientUser>, getAll: string -> Reply<seq<Favorite>>)
      modifies this
      ensures Snapshot() == LoadFromStorageStep(old(Snapshot()), decode, getAll)
    {
      var storedToken := GetItem(storage, TokenKey);
      var userText := GetItem(storage, UserKey);
      if Truthy(storedToken) && Truthy(userText) {
        var parsed := decode(userText.value);
        match parsed {
          case Some(u) =>
            user := Some(u);
            token := storedToken;
            FetchFavorites(getAll);
          case None =>
            storage := storage - {TokenKey};
            storage := storage - {UserKey};
        }
      }
    }

    method AddFavorite(teamName: string, teamBadge: string, league: string,
                       add: (string, string, string, string) -> Reply<()>,
                       getAll: string -> Reply<seq<Favorite>>)
      modifies this
      ensures Snapshot() == AddFavoriteStep(old(Snapshot()), teamName, teamBadge, league, add, getAll)
    {
      if !Truthy(token) {
        return;
      }
      var response := add(token.value, teamName, teamBadge, league);
      if response.Resolved? {
        FetchFavorites(getAll);
      }
    }

    method RemoveFavorite(teamName: string, remove: (string, string) -> Reply<()>,
                          getAll: string -> Reply<seq<Favorite>>)
      modifies this
      ensures Snapshot() == RemoveFavoriteStep(old(Snapshot()), teamName, remove, getAll)
    {
      if !Truthy(token) {
        return;
      }
      var response := remove(token.value, teamName);
      if response.Resolved? {
        FetchFavorites(getAll);
      }
    }

    /** `getNextMatch`: the body of the reply, nothing without a token or
        when the request fails. The store does not change. */
    method GetNextMatch<T>(teamId: string, get: (string, string) -> Reply<Option<T>>)
      returns (r: Option<T>)
      ensures !Truthy(token) ==> r == None
      ensures Truthy(token) && get(token.value, teamId).Rejected? ==> r == None
      ensures Truthy(token) && get(token.value, teamId).Resolved? ==> r == get(token.value, teamId).data
    {
      if !Truthy(token) {
        return None;
      }
      var response := get(token.value, teamId);
      match response {
        case Resolved(data) => return data;
        case Rejected(_, _) => return None;
      }
    }

    /** `getLastMatches`: the body of the reply, empty without a token or
        when the request fails. The store does not change. */
    method GetLastMatches<T>(teamId: string, get: (string, string) -> Reply<seq<T>>)
      returns (r: seq<T>)
      ensures !Truthy(token) ==> r == []
      ensures Truthy(token) && get(token.value, teamId).Rejected? ==> r == []
      ensures Truthy(token) && get(token.value, teamId).Resolved? ==> r == get(token.value, teamId).data
    {
      if !Truthy(token) {
        return [];
      }
      var response := get(token.value, teamId);
      match response {
        case Resolved(data) => return data;
        case Rejected(_, _) => return [];
      }
    }
  }
}
