/**
 * The authentication logic of the connector once the network is abstracted away:
 * the keys of the per-user property store, the empty-input guards of the two
 * credential checks, the login endpoint as an oracle, and the store transitions
 * performed by `resetAuth` and `setCredentials`.
 */
module Credentials {
  import opened Wrappers

  // Keys of the per-user property store.
  const UsernameKey: string := "dscc.username"
  const PasswordKey: string := "dscc.password"
  const AccessTokenKey: string := "dscc.accessToken"
  const AuthKeys: set<string> := {UsernameKey, PasswordKey, AccessTokenKey}

  /**
   * The login endpoint (`POST /login` with body `{email, password}`), seen through
   * the `access_token` field of its parsed reply: `None` when the field is absent
   * or null.
   */
  type LoginEndpoint = (string, string) -> Option<string>

  /** JavaScript truthiness of a string that may be null or undefined. */
  predicate Truthy(s: Option<string>) {
    s.Some? && s.value != ""
  }

  /** `getProperty`: the stored value, or null when the key is absent. */
  function Get(store: map<string, string>, key: string): (r: Option<string>)
    ensures r.Some? <==> key in store
    ensures r.Some? ==> r.value == store[key]
  {
    if key in store then Some(store[key]) else None
  }

  // ---- getAuthType and isAdminUser ----

  /**
   * The authentication types the reporting host defines for connectors; this
   * connector only ever declares `UserPass`.
   */
  datatype AuthType = NoAuth | OAuth2 | Key | UserPass | UserToken
  datatype AuthTypeResponse = AuthTypeResponse(authType: AuthType)

  /** The connector asks the host for a user name and a password. */
  function GetAuthType(): (r: AuthTypeResponse)
    ensures r.authType == UserPass
  {
    AuthTypeResponse(UserPass)
  }

  /** Every user is an administrator of the connector. */
  function IsAdminUser(): (r: bool)
    ensures r
  {
    true
  }

  // ---- checkForValidCreds and validateCredentials ----

  /**
   * `checkForValidCreds`: `None` stands for the `false` it returns. Empty or missing
   * input is refused before the endpoint is asked; otherwise the token is returned
   * when the reply carries a truthy one.
   */
  function CheckForValidCreds(email: Option<string>, password: Option<string>, login: LoginEndpoint): (r: Option<string>)
    ensures !Truthy(email) || !Truthy(password) ==> r == None
    ensures Truthy(email) && Truthy(password) && Truthy(login(email.value, password.value))
            ==> r == login(email.value, password.value)
    ensures r.Some? ==> Truthy(email) && Truthy(password) && r.value != ""
                        && login(email.value, password.value) == r
  {
    if !Truthy(email) || !Truthy(password) then None
    else
      var reply := login(email.value, password.value);
      if Truthy(reply) then reply else None
  }

  /** `validateCredentials`: true exactly when the reply carries a truthy token. */
  function ValidateCredentials(email: Option<string>, password: Option<string>, login: LoginEndpoint): (r: bool)
    ensures !Truthy(email) || !Truthy(password) ==> !r
    ensures r <==> Truthy(email) && Truthy(password) && Truthy(login(email.value, password.value))
  {
    if !Truthy(email) || !Truthy(password) then false
    else Truthy(login(email.value, password.value))
  }

  /** The two checks agree: validation succeeds exactly when a token would be returned. */
  lemma ValidateAgreesWithCheck(email: Option<string>, password: Option<string>, login: LoginEndpoint)
    ensures ValidateCredentials(email, password, login) <==> CheckForValidCreds(email, password, login).Some?
  {
  }

  /** The empty-input guard fires before the endpoint is asked: no reply can change the outcome. */
  lemma GuardIgnoresEndpoint(email: Option<string>, password: Option<string>, login1: LoginEndpoint, login2: LoginEndpoint)
    requires !Truthy(email) || !Truthy(password)
    ensures CheckForValidCreds(email, password, login1) == CheckForValidCreds(email, password, login2) == None
    ensures ValidateCredentials(email, password, login1) == ValidateCredentials(email, password, login2) == false
  {
  }

  // ---- The store transitions of resetAuth and setCredentials ----

  /** `resetAuth`: the three credential keys are deleted, every other key kept. */
  function Reset(store: map<string, string>): (r: map<string, string>)
    ensures r.Keys == store.Keys - AuthKeys
    ensures UsernameKey !in r && PasswordKey !in r && AccessTokenKey !in r
    ensures forall k :: k in r ==> r[k] == store[k]
  {
    store - AuthKeys
  }

  /** The writes of a successful `setCredentials`: exactly the three keys, nothing else. */
  function StoreCredentials(store: map<string, string>, username: string, password: string, token: string): (r: map<string, string>)
    ensures r.Keys == store.Keys + AuthKeys
    ensures r[UsernameKey] == username && r[PasswordKey] == password && r[AccessTokenKey] == token
    ensures forall k :: k in store && k !in AuthKeys ==> r[k] == store[k]
  {
    store[UsernameKey := username][PasswordKey := password][AccessTokenKey := token]
  }

  /** Deleting the keys a second time changes nothing. */
  lemma ResetIdempotent(store: map<string, string>)
    ensures Reset(Reset(store)) == Reset(store)
  {
  }

  /**
   * The credential keys are all absent, or all present with non-empty values
   * (an access token is stored only together with the user name and password
   * that produced it).
   */
  predicate Consistent(store: map<string, string>) {
    || (UsernameKey !in store && PasswordKey !in store && AccessTokenKey !in store)
    || (&& UsernameKey in store && PasswordKey in store && AccessTokenKey in store
        && store[UsernameKey] != "" && store[PasswordKey] != "" && store[AccessTokenKey] != "")
  }

  lemma ResetConsistent(store: map<string, string>)
    ensures Consistent(Reset(store))
  {
  }

  /** The outcome of `setCredentials` on the store: unchanged on failure, the three keys on success. */
  function SetCredentialsStore(store: map<string, string>, username: Option<string>, password: Option<string>, login: LoginEndpoint): (r: map<string, string>)
    ensures CheckForValidCreds(username, password, login).None? ==> r == store
    ensures Consistent(store) ==> Consistent(r)
    ensures CheckForValidCreds(username, password, login).Some? ==>
              r.Keys == store.Keys + AuthKeys
              && Get(r, UsernameKey) == username && Get(r, PasswordKey) == password
              && Get(r, AccessTokenKey) == CheckForValidCreds(username, password, login)
              && (forall k :: k in store && k !in AuthKeys ==> r[k] == store[k])
  {
    match CheckForValidCreds(username, password, login)
    case None => store
    case Some(token) => StoreCredentials(store, username.value, password.value, token)
  }

  /** After `resetAuth`, `isAuthValid` is false whatever the endpoint answers. */
  lemma ResetThenInvalid(store: map<string, string>, login: LoginEndpoint)
    ensures !ValidateCredentials(Get(Reset(store), UsernameKey), Get(Reset(store), PasswordKey), login)
  {
  }

  /**
   * After a successful `setCredentials`, `isAuthValid` holds as long as the endpoint
   * answers the stored credentials as it did at login.
   */
  lemma SetThenValid(store: map<string, string>, username: Option<string>, password: Option<string>, login: LoginEndpoint)
    requires CheckForValidCreds(username, password, login).Some?
    ensures var s := SetCredentialsStore(store, username, password, login);
            ValidateCredentials(Get(s, UsernameKey), Get(s, PasswordKey), login) && Truthy(Get(s, AccessTokenKey))
  {
  }
}
