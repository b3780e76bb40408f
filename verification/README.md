# Clear Labs reporting connector — verified model

This project models the core of a data-source connector for a reporting host. The
connector logs a user in against the Clear Labs API and keeps the user name, password
and access token in the host's per-user property store. It exposes one reportable
field, `companyCount`, and answers data requests by fetching the number of companies
visible to the stored token.

The model has four modules:

- `Wrappers` (`wrappers.dfy`) holds `Option`. `None` stands for JavaScript's `null` or `undefined`.
- `Credentials` (`credentials.dfy`) holds the parts of authentication that do not change state:
  - the store keys `dscc.username`, `dscc.password` and `dscc.accessToken`;
  - JavaScript truthiness of an optional string;
  - the guards and results of `checkForValidCreds` and `validateCredentials`;
  - the store transitions of `resetAuth` and `setCredentials`, as functions on `map<string, string>`;
  - lemmas connecting these operations.
- `Schema` (`schema.dfy`) holds the `dataSchema` registry, `getSchema`, the first-match lookup of requested names, the fetcher list and the rows of `getData`.
- `Connector` (`connector.dfy`) holds the class `Connector`:
  - the per-user store is its mutable field `userProperties`;
  - the login and GraphQL endpoints are oracles (function-valued constants) fixed at construction;
  - its methods are `resetAuth`, `setCredentials`, `isAuthValid`, `getCompanyCount` and `getData`, with their loops.

The login endpoint is modelled as a function from `(email, password)` to the
`access_token` field of the parsed reply. The GraphQL endpoint is modelled as a
function from a token to `res.data.allCompanies.length`, where `None` means that
reading this path threw. Both `checkForValidCreds` and `validateCredentials` post the
same body to the same URL, so they share one login oracle.

The model follows the code as written; three points are easy to misread:

- A requested name missing from `dataSchema` is not dropped from the returned schema.
  - It stays there as `None`, the `undefined` that `map` yields.
  - Only the fetcher list skips it.
  - So `getData` for `unknownField` returns the schema `[None]` and no rows (`Schema.UnknownFieldRequest`), not an empty schema.
- The returned schema has one entry per requested name. The rows are one per matched name, and each row holds exactly one value.
  - The row width therefore equals the schema length only for a one-field request.
- The empty-input check of `setCredentials` is the guard inside `checkForValidCreds`. `setCredentials` itself has no guard.

## Model

| member | source | states |
|---|---|---|
| `Credentials.Get` | main.js:96-97 | `getProperty`: the stored value when the key is present, null (`None`) otherwise; also used for the token read at main.js:149 |
| `Credentials.GetAuthType` | main.js:4-8 | the connector always asks for a user name and password (`USER_PASS`) |
| `Credentials.IsAdminUser` | main.js:139-144 | every user is an administrator |
| `Credentials.CheckForValidCreds` | main.js:28-55 | empty or missing email/password gives `false`; otherwise the reply's token when it is truthy, else `false`; a returned token is always non-empty and is the endpoint's reply |
| `Credentials.ValidateCredentials` | main.js:58-85 | true iff both inputs are non-empty and the reply carries a truthy `access_token` |
| `Credentials.ValidateAgreesWithCheck` | main.js:50-84 | the boolean check succeeds exactly when the token check returns a token |
| `Credentials.GuardIgnoresEndpoint` | main.js:29-61 | with empty input both checks return `false` whatever the endpoint would answer, so it is not consulted |
| `Credentials.Reset` | main.js:13-18 | the three credential keys are absent afterwards; all other keys and their values are kept |
| `Credentials.ResetIdempotent` | main.js:13-18 | resetting twice gives the same store as resetting once |
| `Credentials.ResetConsistent` | main.js:13-18 | after a reset the store holds no partial credentials |
| `Credentials.StoreCredentials` | main.js:121-124 | exactly the three keys are written, with user name, password and token; all other keys are kept |
| `Credentials.SetCredentialsStore` | main.js:115-128 | a falsy check leaves the store unchanged; a successful one stores the given user name, password and returned token and keeps every other key's value; a consistent store stays consistent |
| `Credentials.ResetThenInvalid` | main.js:94-100 | after a reset, `isAuthValid` is false for every endpoint, because the guard fires on the absent values |
| `Credentials.SetThenValid` | main.js:94-124 | after a successful `setCredentials`, the stored credentials validate and a non-empty token is stored |
| `Connector.Connector.ResetAuth` | main.js:13-18 | the store becomes the reset of the old store, which is consistent |
| `Connector.Connector.SetCredentials` | main.js:109-129 | returns `InvalidCredentials` exactly when the check is falsy, and then the store is unchanged; otherwise returns `NoError` with the three keys written |
| `Connector.Connector.IsAuthValid` | main.js:94-100 | the result is the validation of the stored user name and password; true only when both are stored and non-empty |
| `Connector.CompanyCountFor` | main.js:146-181 | not-logged-in iff no truthy token is stored; otherwise the company count, or the malformed-data error when the reply path is missing |
| `Connector.Connector.GetCompanyCount` | main.js:146-181 | returns the count for the stored token; with no token stored, returns the not-logged-in object |
| `Connector.ResetThenNotLoggedIn` | main.js:148-155 | after a reset, every company-count fetch reports not logged in |
| `Schema.GetSchema` | main.js:217-219 | the schema is the one `companyCount` field; looking each of its fields up by name returns that field |
| `Schema.Resolve` | main.js:225-233 | `None` iff no field has the name; otherwise the first field with that name |
| `Schema.ResolveFindsEachField` | main.js:204-215 | with distinct names, each registry field is found by its own name |
| `Connector.LookupField` | main.js:226-232 | the scan that stops at the first match returns the first-match lookup |
| `Schema.ResolveAll` | main.js:225-233 | the `request.fields.map` result has one entry per requested name; `Schema.ResolveAllAt` states that entry k is the lookup of name k |
| `Schema.Fetchers` | main.js:229 | the conditional `push` queues at most one fetcher per requested name; `Schema.FetchersMatchSchema` states it is exactly one per matched name |
| `Schema.ToRows` | main.js:246-252 | the final `map` gives one row per fetched value, in order, whose values are exactly `[value]`; `Schema.RowValuesOfRows` reads the values back |
| `Schema.ResolveAllAt` | main.js:225-233 | the requested schema has one entry per requested name, in request order, each the lookup of that name |
| `Schema.FetchersMatchSchema` | main.js:223-233 | one fetcher is queued per matched name: as many fetchers as non-`None` schema entries |
| `Schema.RowValuesOfRows` | main.js:246-252 | reading the values out of the rows gives back the fetched values in order, one per row |
| `Schema.ExpectedDataShape` | main.js:221-258 | the schema has the request's length and order; there is one row per matched field; each row's values are exactly `[result]` |
| `Connector.Connector.Fetch` | main.js:239-241 | running a queued fetcher returns the company count for the stored token |
| `Connector.Connector.GetData` | main.js:221-258 | the reply equals the expected data for the request and the stored token's fetch result |
| `Schema.CompanyCountRequest` | main.js:221-258 | a request for `companyCount` returns that descriptor and the single row `[result]` |
| `Schema.UnknownFieldRequest` | main.js:225-252 | a request for an unknown name returns the schema `[None]` and no rows |

## Left out

- The HTTP calls to `/login` and `/graphql` are the oracles `Credentials.LoginEndpoint` and `Connector.GraphQLEndpoint`. Headers, the URL, the serialised body and the GraphQL query text are not modelled.
- `JSON.stringify`, `JSON.parse` and the `try`/`catch` around `res.data.allCompanies.length` are not modelled. The parsed outcome is the oracle's value.
- Exceptions are not modelled:
  - `validateCredentials` omits `muteHttpExceptions`, so an HTTP error status throws into `isAuthValid`;
  - a transport failure or an unparsable reply throws;
  - `setCredentials` with no `userPass` throws.
  - The oracles are total, so these paths do not exist in the model.
- Connector.Connector.GetCompanyCount: the fetch to `/graphql` omits `muteHttpExceptions`, so an HTTP error status (for example 401 for an expired token) throws. `JSON.parse` at main.js:175 sits outside the `try`, so an unparsable reply throws too. `DataMalformed` covers only a missing `res.data.allCompanies` path.
- Connector.Connector.GetData: such a throw from `getCompanyCount` aborts the whole request. In the model `GetData` always returns a full schema and rows.
- The `if (!response)` checks are not modelled, because a fetch response object is always truthy.
- A non-string truthy `access_token` is not modelled. The oracle yields strings.
- The endpoint is deterministic within the model: the same arguments always get the same reply. As a result, every fetcher run by one `getData` call sees the same reply.
- `PropertiesService` is modelled only as a map. Its persistence and per-user scoping are not modelled.
- `console.log` and `Logger.log` are logging only and are left out.
- `getConfig` is left out. It returns a fixed description of the configuration UI and has no logic.
