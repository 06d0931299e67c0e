/**
 * The authentication session held by the application's auth provider: the
 * current user, a loading flag that stays set until the stored session has
 * been checked once, and the two tokens kept in the browser's local storage.
 * The storage is a map from keys to strings; HTTP answers are parameters.
 */
module AuthContext {
  import opened Wrappers

  /** User roles. The declared type names two of them; the rest of the client also handles INSTRUCTOR. */
  datatype Role = LEARNER | ADMIN | INSTRUCTOR

  datatype User = User(id: int, email: string, username: string, role: Role, enabled: bool)

  /** The body of a login request. */
  datatype LoginRequest = LoginRequest(email: string, password: string)

  /** The body of a registration request. */
  datatype RegisterRequest = RegisterRequest(email: string, password: string, username: string)

  /** The server's answer to a successful login or registration. */
  datatype AuthResponse = AuthResponse(user: User, accessToken: string, refreshToken: string)

  /** What the provider hands to the components below it. */
  datatype AuthContextValue = AuthContextValue(user: Option<User>, loading: bool)

  const AccessTokenKey := "accessToken"
  const RefreshTokenKey := "refreshToken"
  const LoginEndpoint := "/auth/login"
  const RegisterEndpoint := "/auth/register"
  const LogoutEndpoint := "/auth/logout"
  const OutsideProviderMessage := "useAuth must be used within an AuthProvider"

  /** Whether storage holds an access token that JavaScript treats as present (a non-empty string). */
  predicate HasAccessToken(storage: map<string, string>) {
    AccessTokenKey in storage && storage[AccessTokenKey] != ""
  }

  /** Storage without the two session tokens; every other entry is kept. */
  function WithoutTokens(storage: map<string, string>): (r: map<string, string>)
    ensures AccessTokenKey !in r && RefreshTokenKey !in r
    ensures forall k :: k in storage && k != AccessTokenKey && k != RefreshTokenKey ==> k in r && r[k] == storage[k]
    ensures forall k :: k in r ==> k in storage
  {
    storage - {AccessTokenKey, RefreshTokenKey}
  }

  /** Storage holding exactly the given tokens under the two session keys; every other entry is kept. */
  function WithTokens(storage: map<string, string>, access: string, refresh: string): (r: map<string, string>)
    ensures AccessTokenKey in r && r[AccessTokenKey] == access
    ensures RefreshTokenKey in r && r[RefreshTokenKey] == refresh
    ensures forall k :: k in storage && k != AccessTokenKey && k != RefreshTokenKey ==> k in r && r[k] == storage[k]
    ensures r.Keys == storage.Keys + {AccessTokenKey, RefreshTokenKey}
  {
    storage[AccessTokenKey := access][RefreshTokenKey := refresh]
  }

  class AuthProvider {
    var user: Option<User>
    var loading: bool
    var storage: map<string, string>

    /** Mounting the provider: no user yet, loading, storage as the browser has it. */
    constructor (stored: map<string, string>)
      ensures user == None && loading && storage == stored
    {
      user := None;
      loading := true;
      storage := stored;
    }

    function Value(): (v: AuthContextValue)
      reads this
      ensures v.user == user && v.loading == loading
    {
      AuthContextValue(user, loading)
    }

    /**
     * The session check run once on mount. Without a stored access token no
     * request is made. Otherwise `me` is the answer of the current-user
     * request: the user on success; None on any failure, which removes both
     * tokens and clears the user silently. Loading ends in every case.
     */
    method RestoreSession(me: Option<User>) returns (requested: bool)
      modifies this
      ensures !loading
      ensures requested <==> HasAccessToken(old(storage))
      ensures !requested ==> user == old(user) && storage == old(storage)
      ensures requested && me.Some? ==> user == me && storage == old(storage)
      ensures requested && me.None? ==> user == None && storage == WithoutTokens(old(storage))
    {
      requested := HasAccessToken(storage);
      if requested {
        if me.Some? {
          user := me;
        } else {
          storage := WithoutTokens(storage);
          user := None;
        }
      }
      loading := false;
    }

    /**
     * Stores the tokens and the user of a successful answer; a failed request
     * (None) changes nothing and its error reaches the caller.
     */
    method Authenticate(response: Option<AuthResponse>) returns (rejected: bool)
      modifies this
      ensures rejected <==> response.None?
      ensures loading == old(loading)
      ensures response.None? ==> user == old(user) && storage == old(storage)
      ensures response.Some? ==>
        user == Some(response.value.user) &&
        storage == WithTokens(old(storage), response.value.accessToken, response.value.refreshToken)
    {
      rejected := response.None?;
      if response.Some? {
        storage := WithTokens(storage, response.value.accessToken, response.value.refreshToken);
        user := Some(response.value.user);
      }
    }

    /**
     * Login: posts the form's credentials as they are (`sent`) to the login
     * endpoint; `response` is the server's answer, None when the request failed.
     */
    method Login(data: LoginRequest, response: Option<AuthResponse>) returns (endpoint: string, sent: LoginRequest, rejected: bool)
      modifies this
      ensures endpoint == LoginEndpoint && sent == data
      ensures rejected <==> response.None?
      ensures loading == old(loading)
      ensures response.None? ==> user == old(user) && storage == old(storage)
      ensures response.Some? ==>
        user == Some(response.value.user) &&
        storage == WithTokens(old(storage), response.value.accessToken, response.value.refreshToken)
    {
      endpoint, sent := LoginEndpoint, data;
      rejected := Authenticate(response);
    }

    /** Registration: posts the form's data as it is; otherwise the same contract as login, against the registration endpoint. */
    method Register(data: RegisterRequest, response: Option<AuthResponse>) returns (endpoint: string, sent: RegisterRequest, rejected: bool)
      modifies this
      ensures endpoint == RegisterEndpoint && sent == data
      ensures rejected <==> response.None?
      ensures loading == old(loading)
      ensures response.None? ==> user == old(user) && storage == old(storage)
      ensures response.Some? ==>
        user == Some(response.value.user) &&
        storage == WithTokens(old(storage), response.value.accessToken, response.value.refreshToken)
    {
      endpoint, sent := RegisterEndpoint, data;
      rejected := Authenticate(response);
    }

    /**
     * Logout: tells the server (`serverOk` is whether that worked), then, in
     * every case, removes both tokens and clears the user. A server failure
     * still reaches the caller, after the local session is gone.
     */
    method Logout(serverOk: bool) returns (endpoint: string, rejected: bool)
      modifies this
      ensures endpoint == LogoutEndpoint
      ensures rejected <==> !serverOk
      ensures user == None && storage == WithoutTokens(old(storage))
      ensures !HasAccessToken(storage)
      ensures loading == old(loading)
    {
      endpoint := LogoutEndpoint;
      rejected := !serverOk;
      storage := WithoutTokens(storage);
      user := None;
    }
  }

  /**
   * The hook components use to read the session: outside a provider there is
   * no context and it throws; inside, it yields the provider's value as is.
   */
  function UseAuth(context: Option<AuthContextValue>): (r: Result<AuthContextValue, string>)
    ensures r.Failure? <==> context.None?
    ensures r.Failure? ==> r.error == OutsideProviderMessage
    ensures r.Success? ==> r.value == context.value
  {
    if context.None? then Failure(OutsideProviderMessage) else Success(context.value)
  }

  /**
   * A session from mount to logout: restore, log in, then log out while the
   * server is unreachable. The user and the stored access token are gone
   * afterwards, and a later restore would make no request.
   */
  method LogoutWithServerDown(stored: map<string, string>, me: Option<User>, credentials: LoginRequest, login: AuthResponse)
    returns (user: Option<User>, loading: bool, tokenLeft: bool, rejected: bool)
    ensures user == None && !loading && !tokenLeft && rejected
  {
    var provider := new AuthProvider(stored);
    var _ := provider.RestoreSession(me);
    var _, _, _ := provider.Login(credentials, Some(login));
    var _, r := provider.Logout(false);
    user, loading, tokenLeft, rejected := provider.user, provider.loading, HasAccessToken(provider.storage), r;
  }
}
