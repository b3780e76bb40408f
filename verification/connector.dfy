/**
 * The connector's state-changing and data operations. The per-user property store is
 * the field `userProperties`; the login endpoint and the GraphQL endpoint are oracles
 * fixed when the connector is created.
 */
module Connector {
  import opened Wrappers
  import opened Credentials
  import opened Schema

  /**
   * The GraphQL endpoint (`getAllCompanies`), seen through `res.data.allCompanies.length`
   * for a bearer token: `None` when reading that path throws.
   */
  type GraphQLEndpoint = string -> Option<nat>

  /** `request.userPass` of `setCredentials`; either part may be missing. */
  datatype UserPassRequest = UserPassRequest(username: Option<string>, password: Option<string>)

  /** The `errorCode` of `setCredentials`: `'NONE'` or `'INVALID_CREDENTIALS'`. */
  datatype ErrorCode = NoError | InvalidCredentials

  /**
   * What `getCompanyCount` returns for the stored token: the not-logged-in object
   * when there is no truthy token (and then the endpoint is not asked), otherwise the
   * count or the malformed-data error.
   */
  function CompanyCountFor(token: Option<string>, graphql: GraphQLEndpoint): (r: FetchResult)
    ensures !Truthy(token) <==> r == NotLoggedIn
    ensures Truthy(token) ==> (r == DataMalformed <==> graphql(token.value).None?)
    ensures forall n: nat :: r == Count(n) <==> Truthy(token) && graphql(token.value) == Some(n)
  {
    if !Truthy(token) then NotLoggedIn
    else match graphql(token.value)
      case Some(n) => Count(n)
      case None => DataMalformed
  }

  /** Once the credentials are reset, every data fetch reports that the user is not logged in. */
  lemma ResetThenNotLoggedIn(store: map<string, string>, graphql: GraphQLEndpoint)
    ensures CompanyCountFor(Get(Reset(store), AccessTokenKey), graphql) == NotLoggedIn
  {
  }

  class Connector {
    /** The per-user property store, with the keys `dscc.username`, `dscc.password`, `dscc.accessToken`. */
    var userProperties: map<string, string>
    const login: LoginEndpoint
    const graphql: GraphQLEndpoint

    constructor (stored: map<string, string>, login: LoginEndpoint, graphql: GraphQLEndpoint)
      ensures userProperties == stored && this.login == login && this.graphql == graphql
    {
      userProperties := stored;
      this.login := login;
      this.graphql := graphql;
    }

    /** `resetAuth`: deletes the three credential keys and nothing else. */
    method ResetAuth()
      modifies this
      ensures userProperties == Reset(old(userProperties))
      ensures Consistent(userProperties)
    {
      userProperties := userProperties - {UsernameKey};
      userProperties := userProperties - {PasswordKey};
      userProperties := userProperties - {AccessTokenKey};
    }

    /**
     * `setCredentials`: on a falsy check the store is left as it was and the error is
     * `InvalidCredentials`; on success the three keys are written and the error is `NoError`.
     */
    method SetCredentials(request: UserPassRequest) returns (errorCode: ErrorCode)
      modifies this
      ensures userProperties == SetCredentialsStore(old(userProperties), request.username, request.password, login)
      ensures errorCode == InvalidCredentials <==> CheckForValidCreds(request.username, request.password, login).None?
      ensures errorCode == InvalidCredentials ==> userProperties == old(userProperties)
      ensures Consistent(old(userProperties)) ==> Consistent(userProperties)
    {
      var accessToken := CheckForValidCreds(request.username, request.password, login);
      if accessToken.None? {
        return InvalidCredentials;
      }
      userProperties := userProperties[UsernameKey := request.username.value];
      userProperties := userProperties[PasswordKey := request.password.value];
      userProperties := userProperties[AccessTokenKey := accessToken.value];
      return NoError;
    }

    /** `isAuthValid`: re-validates the stored user name and password against the endpoint. */
    method IsAuthValid() returns (valid: bool)
      ensures valid == ValidateCredentials(Get(userProperties, UsernameKey), Get(userProperties, PasswordKey), login)
      ensures valid ==> Truthy(Get(userProperties, UsernameKey)) && Truthy(Get(userProperties, PasswordKey))
    {
      var userName := Get(userProperties, UsernameKey);
      var password := Get(userProperties, PasswordKey);
      valid := ValidateCredentials(userName, password, login);
    }

    /** `getCompanyCount`: the not-logged-in object when no truthy token is stored, else the fetched count. */
    method GetCompanyCount() returns (r: FetchResult)
      ensures r == CompanyCountFor(Get(userProperties, AccessTokenKey), graphql)
      ensures AccessTokenKey !in userProperties ==> r == NotLoggedIn
    {
      var accessToken := Get(userProperties, AccessTokenKey);
      if !Truthy(accessToken) {
        return NotLoggedIn;
      }
      match graphql(accessToken.value)
      case Some(n) => r := Count(n);
      case None => r := DataMalformed;
    }

    /** Runs one queued fetcher. */
    method Fetch(f: Fetcher) returns (r: FetchResult)
      ensures r == CompanyCountFor(Get(userProperties, AccessTokenKey), graphql)
    {
      match f
      case CompanyCountFetcher => r := GetCompanyCount();
    }

    /**
     * `getData`: resolves every requested name in order, queues a fetcher per match,
     * runs the fetchers in order and wraps each result in a row.
     */
    method GetData(fields: seq<string>) returns (response: DataResponse)
      ensures response == ExpectedData(fields, CompanyCountFor(Get(userProperties, AccessTokenKey), graphql))
    {
      var dataFetcher: seq<Fetcher> := [];
      var requestedSchema: seq<Option<FieldDescriptor>> := [];
      var i := 0;
      while i < |fields|
        invariant 0 <= i <= |fields|
        invariant requestedSchema == ResolveAll(fields[..i])
        invariant dataFetcher == Fetchers(fields[..i])
      {
        var field := LookupField(fields[i]);
        if field.Some? {
          dataFetcher := dataFetcher + [CompanyCountFetcher];
        }
        requestedSchema := requestedSchema + [field];
        assert fields[..i + 1][..i] == fields[..i];
        i := i + 1;
      }
      assert fields[..i] == fields;

      ghost var value := CompanyCountFor(Get(userProperties, AccessTokenKey), graphql);
      var responseData: seq<FetchResult> := [];
      for j := 0 to |dataFetcher|
        invariant responseData == Repeat(value, j)
      {
        var result := Fetch(dataFetcher[j]);
        responseData := responseData + [result];
      }

      response := DataResponse(requestedSchema, ToRows(responseData));
    }
  }

  /**
   * The loop inside the callback of `request.fields.map`: scans `dataSchema` and stops
   * at the first field whose name matches.
   */
  method LookupField(name: string) returns (field: Option<FieldDescriptor>)
    ensures field == Resolve(name, DataSchema)
  {
    var i := 0;
    while i < |DataSchema|
      invariant 0 <= i <= |DataSchema|
      invariant Resolve(name, DataSchema) == Resolve(name, DataSchema[i..])
    {
      if DataSchema[i].name == name {
        return Some(DataSchema[i]);
      }
      i := i + 1;
    }
    return None;
  }
}
